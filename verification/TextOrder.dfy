/** The order of strings, and the order in which a map keyed by strings is walked. */
module TextOrder {

  /** Lexicographic, a proper prefix first. */
  predicate Below(a: string, b: string) {
    b != "" && (a == "" || a[0] < b[0] || (a[0] == b[0] && Below(a[1..], b[1..])))
  }

  lemma {:induction false} BelowIsTotal(a: string, b: string)
    ensures Below(a, b) || a == b || Below(b, a)
  {
    if a != "" && b != "" && a[0] == b[0] {
      BelowIsTotal(a[1..], b[1..]);
      assert a == [a[0]] + a[1..] && b == [b[0]] + b[1..];
    }
  }

  lemma {:induction false} BelowIsAsymmetric(a: string, b: string)
    requires Below(a, b)
    ensures !Below(b, a) && a != b
  {
    if a != "" && a[0] == b[0] {
      BelowIsAsymmetric(a[1..], b[1..]);
    }
  }

  lemma {:induction false} BelowIsTransitive(a: string, b: string, c: string)
    requires Below(a, b) && Below(b, c)
    ensures Below(a, c)
  {
    if a != "" && a[0] == b[0] && b[0] == c[0] {
      BelowIsTransitive(a[1..], b[1..], c[1..]);
    }
  }

  ghost predicate IsLeast(x: string, s: set<string>) {
    x in s && forall y :: y in s ==> y == x || Below(x, y)
  }

  lemma {:induction false} LeastExists(s: set<string>)
    requires s != {}
    ensures exists x :: IsLeast(x, s)
    decreases |s|
  {
    var a :| a in s;
    var rest := s - {a};
    if rest == {} {
      assert s == {a};
      assert IsLeast(a, s);
    } else {
      LeastExists(rest);
      var m :| IsLeast(m, rest);
      BelowIsTotal(a, m);
      var x := if Below(a, m) then a else m;
      forall y | y in s ensures y == x || Below(x, y) {
        if y in rest && y != m && x == a { BelowIsTransitive(a, m, y); }
      }
      assert IsLeast(x, s);
    }
  }

  function Least(s: set<string>): (x: string)
    requires s != {}
    ensures IsLeast(x, s)
  {
    LeastExists(s);
    assert forall x, y | x in s && y in s && (forall z :: z in s ==> z == x || Below(x, z))
                         && (forall z :: z in s ==> z == y || Below(y, z)) :: x == y by {
      forall x, y | x in s && y in s && (forall z :: z in s ==> z == x || Below(x, z))
                    && (forall z :: z in s ==> z == y || Below(y, z)) ensures x == y
      {
        if x != y { BelowIsAsymmetric(x, y); }
      }
    }
    var x :| x in s && forall y :: y in s ==> y == x || Below(x, y);
    x
  }

  predicate Ascending(keys: seq<string>) {
    forall i, j :: 0 <= i < j < |keys| ==> Below(keys[i], keys[j])
  }

  lemma LeastFirst(s: set<string>, x: string, rest: seq<string>, keys: seq<string>)
    requires IsLeast(x, s) && Ascending(rest) && keys == [x] + rest
    requires forall y :: y in rest <==> y in s - {x}
    ensures Ascending(keys) && forall y :: y in keys <==> y in s
  {
    forall i, j | 0 <= i < j < |keys| ensures Below(keys[i], keys[j]) {
      assert keys[j] == rest[j - 1] && rest[j - 1] in rest;
      if i > 0 { assert keys[i] == rest[i - 1]; }
    }
    assert forall y :: y in keys <==> y == x || y in rest;
  }

  /** The members of `s`, least first: how an ordered map hands out its keys. */
  function SortedKeys(s: set<string>): (keys: seq<string>)
    ensures |keys| == |s| && Ascending(keys)
    ensures forall x :: x in keys <==> x in s
    decreases |s|
  {
    if s == {} then []
    else
      var x := Least(s);
      var rest := SortedKeys(s - {x});
      LeastFirst(s, x, rest, [x] + rest);
      [x] + rest
  }
}
