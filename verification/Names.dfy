/** Strings in code point order, and the sorted list of a set of them. */
module Names {
  predicate StringLess(a: string, b: string) {
    if b == "" then false
    else if a == "" then true
    else if a[0] == b[0] then StringLess(a[1..], b[1..])
    else a[0] < b[0]
  }

  lemma {:induction false} StringLessAsymmetric(a: string, b: string)
    requires StringLess(a, b)
    ensures !StringLess(b, a)
  {
    if a != "" && a[0] == b[0] { StringLessAsymmetric(a[1..], b[1..]); }
  }

  lemma {:induction false} StringLessTransitive(a: string, b: string, c: string)
    requires StringLess(a, b) && StringLess(b, c)
    ensures StringLess(a, c)
  {
    if a != "" && a[0] == b[0] && b[0] == c[0] { StringLessTransitive(a[1..], b[1..], c[1..]); }
  }

  lemma {:induction false} StringLessTotal(a: string, b: string)
    requires a != b
    ensures StringLess(a, b) || StringLess(b, a)
  {
    if a != "" && b != "" && a[0] == b[0] {
      assert a == [a[0]] + a[1..] && b == [b[0]] + b[1..];
      StringLessTotal(a[1..], b[1..]);
    }
  }

  ghost predicate NoRepeats(names: seq<string>) { forall i, j :: 0 <= i < j < |names| ==> names[i] != names[j] }

  predicate IsFirst(s: set<string>, x: string) {
    x in s && forall y :: y in s && y != x ==> StringLess(x, y)
  }

  lemma {:induction false} FirstExists(s: set<string>) returns (x: string)
    requires s != {}
    ensures IsFirst(s, x)
    decreases |s|
  {
    hide StringLess;
    var z :| z in s;
    var rest := s - {z};
    if rest == {} {
      assert s == {z};
      x := z;
    } else {
      var r := FirstExists(rest);
      StringLessTotal(z, r);
      if StringLess(z, r) {
        x := z;
        forall y | y in s && y != z ensures StringLess(z, y) {
          if y != r { StringLessTransitive(z, r, y); }
        }
      } else {
        x := r;
      }
    }
  }

  lemma FirstDefined(s: set<string>)
    requires s != {}
    ensures exists x :: IsFirst(s, x)
    ensures forall x, y :: IsFirst(s, x) && IsFirst(s, y) ==> x == y
  {
    hide StringLess;
    var first := FirstExists(s);
    forall x, y | IsFirst(s, x) && IsFirst(s, y) ensures x == y {
      if x != y { StringLessAsymmetric(x, y); }
    }
  }

  function First(s: set<string>): (x: string)
    requires s != {}
    ensures IsFirst(s, x)
  {
    FirstDefined(s);
    var x :| IsFirst(s, x);
    x
  }

  /** sorted(s) */
  function SortedNames(s: set<string>): (r: seq<string>)
    ensures |r| == |s|
    ensures forall x :: x in r <==> x in s
    ensures forall i, j :: 0 <= i < j < |r| ==> r[i] != r[j]
    decreases |s|
  {
    if s == {} then [] else [First(s)] + SortedNames(s - {First(s)})
  }

  lemma {:induction false} SortedNamesIncreases(s: set<string>, i: nat, j: nat)
    requires i < j < |s|
    ensures StringLess(SortedNames(s)[i], SortedNames(s)[j])
    decreases |s|
  {
    hide StringLess, SortedNames;
    var x := First(s);
    var rest := SortedNames(s - {x});
    FirstSplit(s);
    if i > 0 {
      SortedNamesIncreases(s - {x}, i - 1, j - 1);
    } else {
      assert rest[j - 1] in rest;
    }
  }

  lemma FirstSplit(s: set<string>)
    requires s != {}
    ensures SortedNames(s) == [First(s)] + SortedNames(s - {First(s)})
  {}
}
