/** The hand-written scanner for `keyword name { body }` blocks, and the texts it reads back. */
module BlockScanner {
  import opened Prelude
  import opened TextSpace

  predicate IsIdentStart(c: char) {
    'a' <= c <= 'z' || 'A' <= c <= 'Z' || c == '_'
  }

  predicate IsIdentChar(c: char) {
    IsIdentStart(c) || '0' <= c <= '9'
  }

  predicate StartsTriple(s: string) {
    |s| >= 3 && s[0] == '"' && s[1] == '"' && s[2] == '"'
  }

  // ---------------------------------------------------------------- braces

  /**
   Where the brace that brings `depth` to zero is, counted from the start of `rest`.  A quote, or three
   in a row taken as one, switches string mode, and braces inside strings do not count.
   */
  function ScanBrace(rest: string, depth: nat, inString: bool): Option<nat>
    requires depth > 0
    decreases |rest|
  {
    if rest == "" then None
    else if StartsTriple(rest) then Shift(ScanBrace(rest[3..], depth, !inString), 3)
    else
      var quoted := if rest[0] == '"' then !inString else inString;
      if !quoted && rest[0] == '}' && depth == 1 then Some(0)
      else
        var next :=
          if quoted then depth else if rest[0] == '{' then depth + 1
          else if rest[0] == '}' then depth - 1 else depth;
        Shift(ScanBrace(rest[1..], next, quoted), 1)
  }

  function Shift(found: Option<nat>, offset: nat): Option<nat> {
    match found
    case None => None
    case Some(n) => Some(n + offset)
  }

  method MatchingBrace(source: string, open: nat) returns (end: Option<nat>)
    requires open < |source|
    ensures end == Shift(ScanBrace(source[open + 1..], 1, false), open + 1)
  {
    var cursor := open + 1;
    var depth: nat := 1;
    var inString := false;
    while cursor < |source|
      invariant open + 1 <= cursor <= |source| && depth > 0
      invariant Shift(ScanBrace(source[cursor..], depth, inString), cursor)
             == Shift(ScanBrace(source[open + 1..], 1, false), open + 1)
    {
      ghost var rest := source[cursor..];
      if StartsTriple(source[cursor..]) {
        assert rest[3..] == source[cursor + 3..];
        ShiftTwice(ScanBrace(rest[3..], depth, !inString), 3, cursor);
        inString := !inString;
        cursor := cursor + 3;
        continue;
      }
      assert rest[0] == source[cursor] && rest[1..] == source[cursor + 1..];
      if source[cursor] == '"' {
        inString := !inString;
      }
      if !inString {
        if source[cursor] == '{' {
          depth := depth + 1;
        } else if source[cursor] == '}' {
          depth := depth - 1;
          if depth == 0 {
            return Some(cursor);
          }
        }
      }
      ShiftTwice(ScanBrace(rest[1..], depth, inString), 1, cursor);
      cursor := cursor + 1;
    }
    end := None;
  }

  lemma ShiftTwice(found: Option<nat>, a: nat, b: nat)
    ensures Shift(Shift(found, a), b) == Shift(found, b + a)
  {
  }

  datatype Brackets = Closed | Open(depth: nat, inString: bool)

  /** Reading all of `body` from `depth` open braces; `Closed` once the count has come down to zero. */
  function BraceRun(body: string, depth: nat, inString: bool): Brackets
    requires depth > 0
    decreases |body|
  {
    if body == "" then Open(depth, inString)
    else if StartsTriple(body) then BraceRun(body[3..], depth, !inString)
    else
      var quoted := if body[0] == '"' then !inString else inString;
      if !quoted && body[0] == '}' && depth == 1 then Closed
      else
        var next :=
          if quoted then depth else if body[0] == '{' then depth + 1
          else if body[0] == '}' then depth - 1 else depth;
        BraceRun(body[1..], next, quoted)
  }

  /** Every brace outside strings is matched inside `body`, and no string is left open. */
  predicate Balanced(body: string) {
    BraceRun(body, 1, false) == Open(1, false)
  }

  lemma TripleIsLocal(body: string, rest: string)
    ensures StartsTriple(body + "}" + rest) <==> StartsTriple(body)
  {
    var whole := body + "}" + rest;
    assert whole[|body|] == '}';
    if |body| >= 3 {
      assert whole[0] == body[0] && whole[1] == body[1] && whole[2] == body[2];
    }
  }

  lemma {:induction false} ScanFindsEnd(body: string, rest: string, depth: nat, inString: bool)
    requires depth > 0 && BraceRun(body, depth, inString) == Open(1, false)
    ensures ScanBrace(body + "}" + rest, depth, inString) == Some(|body|)
    decreases |body|
  {
    var whole := body + "}" + rest;
    TripleIsLocal(body, rest);
    if body == "" {
      assert whole[0] == '}';
    } else if StartsTriple(body) {
      assert whole[3..] == body[3..] + "}" + rest;
      ScanFindsEnd(body[3..], rest, depth, !inString);
    } else {
      assert whole[0] == body[0] && whole[1..] == body[1..] + "}" + rest;
      var quoted := if body[0] == '"' then !inString else inString;
      var next :=
        if quoted then depth else if body[0] == '{' then depth + 1
        else if body[0] == '}' then depth - 1 else depth;
      ScanFindsEnd(body[1..], rest, next, quoted);
    }
  }

  lemma {:induction false} ScanEndIsBalanced(rest: string, depth: nat, inString: bool)
    requires depth > 0 && ScanBrace(rest, depth, inString).Some?
    ensures var k := ScanBrace(rest, depth, inString).value;
            k < |rest| && rest[k] == '}' && BraceRun(rest[..k], depth, inString) == Open(1, false)
    decreases |rest|
  {
    var k := ScanBrace(rest, depth, inString).value;
    if StartsTriple(rest) {
      ScanEndIsBalanced(rest[3..], depth, !inString);
      assert rest[..k][3..] == rest[3..][..k - 3];
    } else {
      var quoted := if rest[0] == '"' then !inString else inString;
      if !quoted && rest[0] == '}' && depth == 1 {
      } else {
        var next :=
          if quoted then depth else if rest[0] == '{' then depth + 1
          else if rest[0] == '}' then depth - 1 else depth;
        ScanEndIsBalanced(rest[1..], next, quoted);
        assert rest[..k][1..] == rest[1..][..k - 1];
      }
    }
  }

  /** The scanner's matching brace is the one that closes a balanced body, and there is no other. */
  lemma MatchingBraceExact(rest: string, k: nat)
    ensures ScanBrace(rest, 1, false) == Some(k) <==> k < |rest| && rest[k] == '}' && Balanced(rest[..k])
  {
    if ScanBrace(rest, 1, false) == Some(k) {
      ScanEndIsBalanced(rest, 1, false);
    }
    if k < |rest| && rest[k] == '}' && Balanced(rest[..k]) {
      assert rest == rest[..k] + "}" + rest[k + 1..];
      ScanFindsEnd(rest[..k], rest[k + 1..], 1, false);
    }
  }

  // ---------------------------------------------------------------- heads

  /** Characters before the first one that can start an identifier. */
  function SkipToIdentifier(rest: string): nat
    ensures SkipToIdentifier(rest) <= |rest|
    ensures SkipToIdentifier(rest) < |rest| ==> IsIdentStart(rest[SkipToIdentifier(rest)])
  {
    if rest == "" || IsIdentStart(rest[0]) then 0 else 1 + SkipToIdentifier(rest[1..])
  }

  function IdentifierLength(rest: string): nat
    ensures IdentifierLength(rest) <= |rest|
    ensures forall i :: 0 <= i < IdentifierLength(rest) ==> IsIdentChar(rest[i])
  {
    if rest == "" || !IsIdentChar(rest[0]) then 0 else 1 + IdentifierLength(rest[1..])
  }

  function NameLength(rest: string): nat
    ensures NameLength(rest) <= |rest|
    ensures forall i :: 0 <= i < NameLength(rest) ==> IsNameChar(rest[i])
  {
    if rest == "" || !IsNameChar(rest[0]) then 0 else 1 + NameLength(rest[1..])
  }

  predicate IsNameChar(c: char) {
    !IsWhitespace(c) && c != '{'
  }

  function SpaceLength(rest: string): nat
    ensures SpaceLength(rest) <= |rest|
  {
    if rest == "" || !IsWhitespace(rest[0]) then 0 else 1 + SpaceLength(rest[1..])
  }

  /** A block's head: keyword, optional name, and how many characters up to where `{` is expected. */
  datatype Head = Head(keyword: string, name: Option<string>, length: nat)

  /** Reads a head from the start of `rest`. */
  function ReadHead(rest: string): (head: Head)
    ensures |head.keyword| <= head.length <= |rest|
    ensures IsIdentStart(if rest == "" then ' ' else rest[0]) ==> IsIdentifier(head.keyword)
    ensures head.name.Some? ==> IsName(head.name.value)
  {
    var keyword := IdentifierLength(rest);
    var tail := rest[keyword..];
    var gap := SpaceLength(tail);
    NameAndGap(rest[..keyword], keyword + gap, tail[gap..])
  }

  /** The rest of a head once `used` characters are behind: a name unless the block opens right here. */
  function NameAndGap(keyword: string, used: nat, rest: string): (head: Head)
    ensures head.keyword == keyword && used <= head.length <= used + |rest|
    ensures head.name.Some? ==> IsName(head.name.value)
  {
    if rest != "" && rest[0] == '{' then Head(keyword, None, used)
    else
      var name := NameLength(rest);
      Head(keyword, if name == 0 then None else Some(rest[..name]), used + name + SpaceLength(rest[name..]))
  }

  predicate IsIdentifier(s: string) {
    s != "" && IsIdentStart(s[0]) && forall i :: 0 <= i < |s| ==> IsIdentChar(s[i])
  }

  predicate IsName(s: string) {
    s != "" && forall i :: 0 <= i < |s| ==> IsNameChar(s[i])
  }

  datatype NamedBlock = NamedBlock(keyword: string, name: Option<string>, body: string)

  datatype ScanError = Unterminated(keyword: string)

  type Blocks = Result<seq<NamedBlock>, ScanError>

  function Prepend(blocks: seq<NamedBlock>, rest: Blocks): Blocks {
    match rest
    case Err(e) => Err(e)
    case Ok(more) => Ok(blocks + more)
  }

  lemma PrependNothing(rest: Blocks)
    ensures Prepend([], rest) == rest
  {
    if rest.Ok? { assert [] + rest.value == rest.value; }
  }

  lemma PrependTwice(a: seq<NamedBlock>, b: seq<NamedBlock>, rest: Blocks)
    ensures Prepend(a, Prepend(b, rest)) == Prepend(a + b, rest)
  {
    if rest.Ok? {
      assert a + (b + rest.value) == a + b + rest.value;
    }
  }

  /** What one turn of the scan does: stop, drop a word, fail, or take a block; then how far it moves on. */
  datatype Turn = Done | DropWord(next: nat) | Fail(error: ScanError) | Take(block: NamedBlock, next: nat)

  function NextTurn(rest: string): (turn: Turn)
    ensures turn.DropWord? || turn.Take? ==> 0 < turn.next <= |rest|
  {
    var start := SkipToIdentifier(rest);
    if start == |rest| then Done else TurnAt(rest[start..], start)
  }

  /** The turn at an identifier, `skipped` characters having been passed over before it. */
  function TurnAt(rest: string, skipped: nat): (turn: Turn)
    requires rest != "" && IsIdentStart(rest[0])
    ensures !turn.Done?
    ensures turn.DropWord? || turn.Take? ==> skipped < turn.next <= skipped + |rest|
  {
    var head := ReadHead(rest);
    if head.length < |rest| && rest[head.length] == '{'
    then TakeBody(head, rest[head.length + 1..], skipped + head.length + 1)
    else DropWord(skipped + |head.keyword|)
  }

  function TakeBody(head: Head, inside: string, skipped: nat): (turn: Turn)
    ensures turn.Fail? || turn.Take?
    ensures turn.Take? ==> skipped < turn.next <= skipped + |inside|
  {
    match ScanBrace(inside, 1, false)
    case None => Fail(Unterminated(head.keyword))
    case Some(end) =>
      MatchingBraceExact(inside, end);
      Take(NamedBlock(head.keyword, head.name, inside[..end]), skipped + end + 1)
  }

  function TopLevelBlocks(rest: string): Blocks
    decreases |rest|
  {
    match NextTurn(rest)
    case Done => Ok([])
    case DropWord(next) => TopLevelBlocks(rest[next..])
    case Fail(error) => Err(error)
    case Take(block, next) => Prepend([block], TopLevelBlocks(rest[next..]))
  }

  lemma DropTwice(source: string, from: nat, step: nat, to: nat)
    requires from + step == to <= |source|
    ensures source[from..][step..] == source[to..]
  {
  }

  lemma TurnAtPosition(source: string, start: nat, skipped: nat)
    requires start < |source| && IsIdentStart(source[start])
    ensures var head := ReadHead(source[start..]);
            var at := start + head.length;
            TurnAt(source[start..], skipped) ==
              if at < |source| && source[at] == '{' then TakeBody(head, source[at + 1..], skipped + head.length + 1)
              else DropWord(skipped + |head.keyword|)
  {
    var head := ReadHead(source[start..]);
    if start + head.length < |source| {
      assert source[start..][head.length] == source[start + head.length];
      DropTwice(source, start, head.length + 1, start + head.length + 1);
    }
  }

  method ScanTurn(source: string, cursor: nat) returns (turn: Turn)
    requires cursor <= |source|
    ensures turn == NextTurn(source[cursor..])
  {
    var skipped := SkipToIdentifier(source[cursor..]);
    var start := cursor + skipped;
    if start == |source| {
      return Done;
    }
    DropTwice(source, cursor, skipped, start);
    assert source[cursor..][skipped] == source[start];
    turn := ScanTurnAt(source, start, skipped);
  }

  method ScanTurnAt(source: string, start: nat, skipped: nat) returns (turn: Turn)
    requires start < |source| && IsIdentStart(source[start])
    ensures turn == TurnAt(source[start..], skipped)
  {
    TurnAtPosition(source, start, skipped);
    var head := ReadHead(source[start..]);
    var at := start + head.length;
    if !(at < |source| && source[at] == '{') {
      return DropWord(skipped + |head.keyword|);
    }
    turn := ScanBody(source, head, at, skipped + head.length + 1);
  }

  method ScanBody(source: string, head: Head, open: nat, skipped: nat) returns (turn: Turn)
    requires open < |source|
    ensures turn == TakeBody(head, source[open + 1..], skipped)
  {
    var end := MatchingBrace(source, open);
    if end == None {
      return Fail(Unterminated(head.keyword));
    }
    ghost var n := end.value - open - 1;
    MatchingBraceExact(source[open + 1..], n);
    assert source[open + 1..][..n] == source[open + 1..end.value];
    turn := Take(NamedBlock(head.keyword, head.name, source[open + 1..end.value]), skipped + end.value - open);
  }

  /** With `blocks` found so far, scanning `rest` completes the answer `all`. */
  ghost predicate Completes(rest: string, blocks: seq<NamedBlock>, all: Blocks) {
    Prepend(blocks, TopLevelBlocks(rest)) == all
  }

  lemma DropCompletes(rest: string, blocks: seq<NamedBlock>, all: Blocks, step: nat, after: string)
    requires Completes(rest, blocks, all)
    requires NextTurn(rest) == DropWord(step) && after == rest[step..]
    ensures Completes(after, blocks, all)
  {
  }

  lemma TakeCompletes(rest: string, blocks: seq<NamedBlock>, all: Blocks, block: NamedBlock, step: nat, after: string)
    requires Completes(rest, blocks, all)
    requires NextTurn(rest) == Take(block, step) && after == rest[step..]
    ensures Completes(after, blocks + [block], all)
  {
    PrependTwice(blocks, [block], TopLevelBlocks(after));
  }

  lemma EndCompletes(rest: string, blocks: seq<NamedBlock>, all: Blocks)
    requires Completes(rest, blocks, all)
    ensures NextTurn(rest).Done? ==> all == Ok(blocks)
    ensures NextTurn(rest).Fail? ==> all == Err(NextTurn(rest).error)
  {
    assert blocks + [] == blocks;
  }

  method ScanTopLevelBlocks(source: string) returns (result: Blocks)
    ensures result == TopLevelBlocks(source)
  {
    var blocks: seq<NamedBlock> := [];
    var cursor := 0;
    ghost var all, rest := TopLevelBlocks(source), source;
    PrependNothing(all);
    while true
      invariant 0 <= cursor <= |source| && rest == source[cursor..]
      invariant Completes(rest, blocks, all)
      decreases |source| - cursor
    {
      var turn := ScanTurn(source, cursor);
      match turn {
        case Done =>
          EndCompletes(rest, blocks, all);
          return Ok(blocks);
        case DropWord(next) =>
          ghost var from, after := cursor, rest[next..];
          DropCompletes(rest, blocks, all, next, after);
          cursor, rest := cursor + next, after;
          DropTwice(source, from, next, cursor);
        case Fail(error) =>
          EndCompletes(rest, blocks, all);
          return Err(error);
        case Take(block, next) =>
          ghost var from, after := cursor, rest[next..];
          TakeCompletes(rest, blocks, all, block, next, after);
          blocks, cursor, rest := blocks + [block], cursor + next, after;
          DropTwice(source, from, next, cursor);
      }
    }
  }

  // ---------------------------------------------------------------- what any scan returns

  predicate WellShaped(block: NamedBlock) {
    IsIdentifier(block.keyword) && (block.name.Some? ==> IsName(block.name.value)) && Balanced(block.body)
  }

  /** Whatever the text, a returned block has an identifier, a proper name if any, and a balanced body. */
  lemma {:induction false} ScannedBlocksAreWellShaped(source: string)
    requires TopLevelBlocks(source).Ok?
    ensures forall b :: b in TopLevelBlocks(source).value ==> WellShaped(b)
    decreases |source|
  {
    var turn := NextTurn(source);
    if turn.Take? || turn.DropWord? {
      ScannedBlocksAreWellShaped(source[turn.next..]);
      TakenIsWellShaped(source);
    }
  }

  lemma TakenIsWellShaped(source: string)
    ensures NextTurn(source).Take? ==> WellShaped(NextTurn(source).block)
  {
    if NextTurn(source).Take? {
      var rest := source[SkipToIdentifier(source)..];
      var inside := rest[ReadHead(rest).length + 1..];
      MatchingBraceExact(inside, ScanBrace(inside, 1, false).value);
    }
  }

  // ---------------------------------------------------------------- printed blocks

  /** A block as printed: filler, keyword, and name if any, each followed by its spacing, then the body. */
  datatype Printed = Printed(lead: string, keyword: string, gap: string, name: Option<string>, nameGap: string,
                             body: string)

  function PrintHead(p: Printed): string {
    p.keyword + (match p.name case None => "" case Some(name) => p.gap + name) + p.nameGap
  }

  function Print(p: Printed): string {
    p.lead + (PrintHead(p) + ("{" + (p.body + "}")))
  }

  function PrintAll(ps: seq<Printed>, tail: string): string {
    if ps == [] then tail else Print(ps[0]) + PrintAll(ps[1..], tail)
  }

  /** Text that holds nothing the scanner could take for the start of a block. */
  predicate IsFiller(s: string) {
    forall i :: 0 <= i < |s| ==> !IsIdentStart(s[i])
  }

  predicate Printable(p: Printed) {
    && IsFiller(p.lead) && IsIdentifier(p.keyword)
    && AllWhitespace(p.gap) && p.gap != "" && AllWhitespace(p.nameGap)
    && (p.name.Some? ==> IsName(p.name.value))
    && Balanced(p.body)
  }

  function AsBlock(p: Printed): NamedBlock {
    NamedBlock(p.keyword, p.name, p.body)
  }

  function AsBlocks(ps: seq<Printed>): (blocks: seq<NamedBlock>)
    ensures |blocks| == |ps| && forall i :: 0 <= i < |ps| ==> blocks[i] == AsBlock(ps[i])
  {
    seq(|ps|, i requires 0 <= i < |ps| => AsBlock(ps[i]))
  }

  lemma {:induction false} SkipsFiller(lead: string, rest: string)
    requires IsFiller(lead) && (rest == "" || IsIdentStart(rest[0]))
    ensures SkipToIdentifier(lead + rest) == |lead|
    decreases |lead|
  {
    if lead == "" {
      assert lead + rest == rest;
    } else {
      assert (lead + rest)[0] == lead[0] && (lead + rest)[1..] == lead[1..] + rest;
      SkipsFiller(lead[1..], rest);
    }
  }

  lemma {:induction false} ReadsIdentifier(word: string, rest: string)
    requires (forall i :: 0 <= i < |word| ==> IsIdentChar(word[i])) && (rest == "" || !IsIdentChar(rest[0]))
    ensures IdentifierLength(word + rest) == |word|
    decreases |word|
  {
    if word == "" {
      assert word + rest == rest;
    } else {
      assert (word + rest)[0] == word[0] && (word + rest)[1..] == word[1..] + rest;
      ReadsIdentifier(word[1..], rest);
    }
  }

  lemma {:induction false} ReadsName(name: string, rest: string)
    requires (forall i :: 0 <= i < |name| ==> IsNameChar(name[i])) && (rest == "" || !IsNameChar(rest[0]))
    ensures NameLength(name + rest) == |name|
    decreases |name|
  {
    if name == "" {
      assert name + rest == rest;
    } else {
      assert (name + rest)[0] == name[0] && (name + rest)[1..] == name[1..] + rest;
      ReadsName(name[1..], rest);
    }
  }

  lemma {:induction false} ReadsSpace(space: string, rest: string)
    requires AllWhitespace(space) && (rest == "" || !IsWhitespace(rest[0]))
    ensures SpaceLength(space + rest) == |space|
    decreases |space|
  {
    if space == "" {
      assert space + rest == rest;
    } else {
      assert (space + rest)[0] == space[0] && (space + rest)[1..] == space[1..] + rest;
      ReadsSpace(space[1..], rest);
    }
  }

  lemma SplitsBack(a: string, b: string)
    ensures (a + b)[..|a|] == a && (a + b)[|a|..] == b
  {
  }

  lemma NameReadsBack(p: Printed, used: nat, rest: string)
    requires Printable(p) && p.name.Some? && rest != "" && rest[0] == '{'
    ensures NameAndGap(p.keyword, used, p.name.value + (p.nameGap + rest))
         == Head(p.keyword, p.name, used + |p.name.value| + |p.nameGap|)
  {
    var name, after := p.name.value, p.nameGap + rest;
    assert (name + after)[0] == name[0];
    assert after[0] == if p.nameGap == "" then '{' else p.nameGap[0];
    ReadsName(name, after);
    SplitsBack(name, after);
    ReadsSpace(p.nameGap, rest);
  }

  lemma HeadReadsBack(p: Printed, rest: string)
    requires Printable(p) && rest != "" && rest[0] == '{'
    ensures ReadHead(PrintHead(p) + rest) == Head(p.keyword, p.name, |PrintHead(p)|)
  {
    var gap := if p.name.None? then p.nameGap else p.gap;
    var afterGap := if p.name.None? then rest else p.name.value + (p.nameGap + rest);
    var after := gap + afterGap;
    assert PrintHead(p) + rest == p.keyword + after;
    assert afterGap[0] == if p.name.None? then '{' else p.name.value[0];
    assert after[0] == if gap == "" then '{' else gap[0];
    ReadsIdentifier(p.keyword, after);
    SplitsBack(p.keyword, after);
    ReadsSpace(gap, afterGap);
    SplitsBack(gap, afterGap);
    if p.name.Some? {
      NameReadsBack(p, |p.keyword| + |gap|, rest);
    }
  }

  lemma BlockReadsBack(p: Printed, rest: string)
    requires Printable(p)
    ensures TopLevelBlocks(Print(p) + rest) == Prepend([AsBlock(p)], TopLevelBlocks(rest))
  {
    var block := PrintHead(p) + ("{" + (p.body + "}" + rest));
    assert Print(p) + rest == p.lead + block;
    assert block[0] == p.keyword[0];
    SkipsFiller(p.lead, block);
    SplitsBack(p.lead, block);
    TurnReadsBack(p, rest, block, |p.lead|);
    assert (Print(p) + rest)[|Print(p)|..] == rest;
  }

  lemma TurnReadsBack(p: Printed, rest: string, block: string, skipped: nat)
    requires Printable(p) && block == PrintHead(p) + ("{" + (p.body + "}" + rest))
    requires IsIdentStart(block[0])
    ensures TurnAt(block, skipped) == Take(AsBlock(p), skipped + |PrintHead(p)| + |p.body| + 2)
  {
    var head, inside := PrintHead(p), p.body + "}" + rest;
    HeadReadsBack(p, "{" + inside);
    OpensHere(block, head, inside);
    BodyReadsBack(Head(p.keyword, p.name, |head|), p.body, rest, skipped + |head| + 1);
  }

  lemma OpensHere(block: string, head: string, inside: string)
    requires block == head + ("{" + inside)
    ensures |head| < |block| && block[|head|] == '{' && block[|head| + 1..] == inside
  {
    assert block[|head|] == ("{" + inside)[0];
  }

  lemma BodyReadsBack(head: Head, body: string, rest: string, skipped: nat)
    requires Balanced(body)
    ensures TakeBody(head, body + "}" + rest, skipped)
            == Take(NamedBlock(head.keyword, head.name, body), skipped + |body| + 1)
  {
    ScanFindsEnd(body, rest, 1, false);
    BodyIsCut(body, rest);
  }

  lemma BodyIsCut(body: string, rest: string)
    ensures (body + "}" + rest)[..|body|] == body && (body + "}" + rest)[|body| + 1..] == rest
  {
  }

  /** Printed blocks scan back to themselves, whatever their spacing and balanced bodies. */
  lemma {:induction false} PrintedBlocksReadBack(ps: seq<Printed>, tail: string)
    requires (forall p :: p in ps ==> Printable(p)) && IsFiller(tail)
    ensures TopLevelBlocks(PrintAll(ps, tail)) == Ok(AsBlocks(ps))
    decreases |ps|
  {
    if ps == [] {
      SkipsFiller(tail, "");
      assert tail + "" == tail;
      assert AsBlocks(ps) == [];
    } else {
      BlockReadsBack(ps[0], PrintAll(ps[1..], tail));
      PrintedBlocksReadBack(ps[1..], tail);
      assert [AsBlock(ps[0])] + AsBlocks(ps[1..]) == AsBlocks(ps);
    }
  }

  // ---------------------------------------------------------------- trees of blocks

  datatype Tree = Tree(lead: string, keyword: string, gap: string, name: Option<string>, nameGap: string, body: Body)

  datatype Body = Raw(text: string) | Nested(children: seq<Tree>, tail: string)

  function BodyText(body: Body): string
    decreases body, 0
  {
    match body
    case Raw(text) => text
    case Nested(children, tail) => ForestText(children, tail)
  }

  function Flat(tree: Tree): Printed
    decreases tree, 1
  {
    Printed(tree.lead, tree.keyword, tree.gap, tree.name, tree.nameGap, BodyText(tree.body))
  }

  function ForestText(trees: seq<Tree>, tail: string): string
    decreases trees, 0
  {
    if trees == [] then tail else Print(Flat(trees[0])) + ForestText(trees[1..], tail)
  }

  /** Free of the characters that the brace count looks at. */
  predicate IsPlain(s: string) {
    forall i :: 0 <= i < |s| ==> s[i] != '"' && s[i] != '{' && s[i] != '}'
  }

  predicate TreeOk(tree: Tree)
    decreases tree, 1
  {
    && IsFiller(tree.lead) && IsPlain(tree.lead)
    && IsIdentifier(tree.keyword)
    && AllWhitespace(tree.gap) && tree.gap != "" && AllWhitespace(tree.nameGap)
    && (tree.name.Some? ==> IsName(tree.name.value) && IsPlain(tree.name.value))
    && match tree.body
       case Raw(text) => Balanced(text)
       case Nested(children, tail) => ForestOk(children, tail)
  }

  predicate ForestOk(trees: seq<Tree>, tail: string)
    decreases trees, 0
  {
    && IsFiller(tail) && IsPlain(tail)
    && forall i :: 0 <= i < |trees| ==> TreeOk(trees[i])
  }

  lemma {:induction false} PlainKeepsRun(plain: string, rest: string, depth: nat)
    requires IsPlain(plain) && depth > 0
    ensures BraceRun(plain + rest, depth, false) == BraceRun(rest, depth, false)
    decreases |plain|
  {
    if plain == "" {
      assert plain + rest == rest;
    } else {
      assert (plain + rest)[0] == plain[0] && (plain + rest)[1..] == plain[1..] + rest;
      PlainKeepsRun(plain[1..], rest, depth);
    }
  }

  /** A run does not depend on how many braces were open before, as long as they stay open. */
  lemma {:induction false} RunBelow(body: string, rest: string, depth: nat, inString: bool, extra: nat)
    requires depth > 0 && BraceRun(body, depth, inString) == Open(1, false)
    ensures BraceRun(body + "}" + rest, depth + extra, inString) == BraceRun("}" + rest, 1 + extra, false)
    decreases |body|
  {
    var whole := body + "}" + rest;
    TripleIsLocal(body, rest);
    if body == "" {
      assert whole == "}" + rest;
    } else if StartsTriple(body) {
      assert whole[3..] == body[3..] + "}" + rest;
      RunBelow(body[3..], rest, depth, !inString, extra);
    } else {
      assert whole[0] == body[0] && whole[1..] == body[1..] + "}" + rest;
      var quoted := if body[0] == '"' then !inString else inString;
      var next :=
        if quoted then depth else if body[0] == '{' then depth + 1
        else if body[0] == '}' then depth - 1 else depth;
      RunBelow(body[1..], rest, next, quoted, extra);
    }
  }

  lemma BlockKeepsRun(p: Printed, rest: string)
    requires Printable(p) && IsPlain(p.lead) && (p.name.Some? ==> IsPlain(p.name.value))
    ensures BraceRun(Print(p) + rest, 1, false) == BraceRun(rest, 1, false)
  {
    var inside := p.body + "}" + rest;
    assert forall c :: IsWhitespace(c) || IsIdentChar(c) ==> c != '"' && c != '{' && c != '}';
    assert IsPlain(p.lead + PrintHead(p));
    assert Print(p) + rest == (p.lead + PrintHead(p)) + ("{" + inside);
    PlainKeepsRun(p.lead + PrintHead(p), "{" + inside, 1);
    assert ("{" + inside)[1..] == inside;
    RunBelow(p.body, rest, 1, false, 1);
    assert ("}" + rest)[1..] == rest;
  }

  lemma {:induction false} TreesArePrintable(trees: seq<Tree>, tail: string)
    requires ForestOk(trees, tail)
    ensures Balanced(ForestText(trees, tail))
    ensures forall i :: 0 <= i < |trees| ==> Printable(Flat(trees[i]))
    decreases trees
  {
    if trees == [] {
      PlainKeepsRun(tail, "", 1);
      assert tail + "" == tail;
    } else {
      var tree := trees[0];
      assert TreeOk(tree);
      if tree.body.Nested? {
        TreesArePrintable(tree.body.children, tree.body.tail);
      }
      TreesArePrintable(trees[1..], tail);
      assert Balanced(BodyText(tree.body));
      BlockKeepsRun(Flat(tree), ForestText(trees[1..], tail));
      forall i | 0 <= i < |trees| ensures Printable(Flat(trees[i])) {
        if i > 0 { assert trees[i] == trees[1..][i - 1]; }
      }
    }
  }

  function Flats(trees: seq<Tree>): (ps: seq<Printed>)
    ensures |ps| == |trees| && forall i :: 0 <= i < |trees| ==> ps[i] == Flat(trees[i])
  {
    seq(|trees|, i requires 0 <= i < |trees| => Flat(trees[i]))
  }

  lemma {:induction false} ForestTextIsPrintAll(trees: seq<Tree>, tail: string)
    ensures ForestText(trees, tail) == PrintAll(Flats(trees), tail)
    decreases |trees|
  {
    if trees != [] {
      ForestTextIsPrintAll(trees[1..], tail);
      assert Flats(trees)[1..] == Flats(trees[1..]);
    }
  }

  /** Scanning `source`, and then every nested body, finds exactly the blocks of `trees`. */
  ghost predicate ReadsAs(source: string, trees: seq<Tree>)
    decreases trees
  {
    match TopLevelBlocks(source)
    case Err(_) => false
    case Ok(blocks) =>
      && |blocks| == |trees|
      && forall i :: 0 <= i < |trees| ==>
           && blocks[i].keyword == trees[i].keyword
           && blocks[i].name == trees[i].name
           && match trees[i].body
              case Raw(text) => blocks[i].body == text
              case Nested(children, _) => ReadsAs(blocks[i].body, children)
  }

  /** A printed tree of blocks reads back as that tree, level by level. */
  lemma {:induction false} PrintedForestReadsBack(trees: seq<Tree>, tail: string)
    requires ForestOk(trees, tail)
    ensures ReadsAs(ForestText(trees, tail), trees)
    decreases trees
  {
    TreesArePrintable(trees, tail);
    ForestTextIsPrintAll(trees, tail);
    PrintedBlocksReadBack(Flats(trees), tail);
    forall i | 0 <= i < |trees| && trees[i].body.Nested?
      ensures ReadsAs(BodyText(trees[i].body), trees[i].body.children)
    {
      assert TreeOk(trees[i]);
      PrintedForestReadsBack(trees[i].body.children, trees[i].body.tail);
    }
  }
}
