/** How a query and a list of phrases are broken into comparable terms. */
module TextTerms {

  predicate IsTermChar(c: char) {
    'a' <= c <= 'z' || 'A' <= c <= 'Z' || '0' <= c <= '9' || c == '_' || c == '-'
  }

  function LowerChar(c: char): char {
    if 'A' <= c <= 'Z' then c - 'A' + 'a' else c
  }

  function Lower(s: string): string {
    seq(|s|, i requires 0 <= i < |s| => LowerChar(s[i]))
  }

  /** The stretches between separators; `word` is the stretch read so far. */
  function Stretches(text: string, word: string): seq<string>
    decreases |text|
  {
    if text == "" then [word]
    else if IsTermChar(text[0]) then Stretches(text[1..], word + [text[0]])
    else [word] + Stretches(text[1..], "")
  }

  function Terms(text: string): set<string> {
    set w | w in Stretches(text, "") && w != "" :: Lower(w)
  }

  function Join(values: seq<string>, separator: string): string {
    if values == [] then ""
    else if |values| == 1 then values[0]
    else values[0] + separator + Join(values[1..], separator)
  }

  function TermOverlap(queryTerms: set<string>, values: seq<string>): nat {
    |queryTerms * Terms(Join(values, " "))|
  }

  lemma {:induction false} StretchesSplit(a: string, b: string, word: string)
    ensures Stretches(a + " " + b, word) == Stretches(a, word) + Stretches(b, "")
    decreases |a|
  {
    var whole := a + " " + b;
    if a == "" {
      assert whole[0] == ' ' && whole[1..] == b;
    } else {
      assert whole[0] == a[0] && whole[1..] == a[1..] + " " + b;
      StretchesSplit(a[1..], b, if IsTermChar(a[0]) then word + [a[0]] else "");
    }
  }

  lemma TermsSplit(a: string, b: string)
    ensures Terms(a + " " + b) == Terms(a) + Terms(b)
  {
    StretchesSplit(a, b, "");
  }

  lemma {:induction false} TermsOfJoin(values: seq<string>, term: string)
    ensures term in Terms(Join(values, " ")) <==> exists v :: v in values && term in Terms(v)
    decreases |values|
  {
    if values == [] {
    } else if |values| == 1 {
    } else {
      TermsSplit(values[0], Join(values[1..], " "));
      TermsOfJoin(values[1..], term);
      assert forall v :: v in values <==> v == values[0] || v in values[1..];
    }
  }

  /** Joining the phrases creates no terms: a query overlaps a list exactly when it overlaps a member. */
  lemma OverlapIffSomeValue(queryTerms: set<string>, values: seq<string>)
    ensures TermOverlap(queryTerms, values) > 0 <==> exists v :: v in values && queryTerms * Terms(v) != {}
  {
    var common := queryTerms * Terms(Join(values, " "));
    if common != {} {
      var t :| t in common;
      TermsOfJoin(values, t);
      var v :| v in values && t in Terms(v);
      assert t in queryTerms * Terms(v);
    }
    if v :| v in values && queryTerms * Terms(v) != {} {
      var t :| t in queryTerms * Terms(v);
      TermsOfJoin(values, t);
      assert t in common;
    }
  }
}
