/** The order of Python strings, and lists sorted by it. */
module SortedNames {

  /** `a < b` on Python strings. */
  predicate Before(a: string, b: string) {
    b != "" && (a == "" || a[0] < b[0] || (a[0] == b[0] && Before(a[1..], b[1..])))
  }

  lemma {:induction false} NotBeforeSelf(a: string)
    ensures !Before(a, a)
  {
    if a != "" { NotBeforeSelf(a[1..]); }
  }

  lemma {:induction false} BeforeTransitive(a: string, b: string, c: string)
    requires Before(a, b) && Before(b, c)
    ensures Before(a, c)
  {
    if a != "" && a[0] == b[0] == c[0] { BeforeTransitive(a[1..], b[1..], c[1..]); }
  }

  lemma {:induction false} BeforeTotal(a: string, b: string)
    ensures Before(a, b) || a == b || Before(b, a)
    ensures Before(a, b) ==> !Before(b, a)
  {
    if a != "" && b != "" && a[0] == b[0] {
      BeforeTotal(a[1..], b[1..]);
      assert a == [a[0]] + a[1..] && b == [b[0]] + b[1..];
    }
  }

  // ----- Sorted name lists

  predicate Ascending(names: seq<string>) { forall i, j :: 0 <= i < j < |names| ==> Before(names[i], names[j]) }

  function Elements(names: seq<string>): set<string> { set n <- names }

  /** Where a name goes in a sorted list. */
  function Insert(names: seq<string>, n: string): seq<string> {
    if names == [] then [n]
    else if n == names[0] then names
    else if Before(n, names[0]) then [n] + names
    else [names[0]] + Insert(names[1..], n)
  }

  lemma AscendingTail(names: seq<string>)
    requires Ascending(names) && names != []
    ensures Ascending(names[1..])
    ensures forall x <- names[1..] :: Before(names[0], x)
  {
    forall x | x in names[1..] ensures Before(names[0], x) {
      var i :| 0 <= i < |names[1..]| && names[1..][i] == x;
      assert names[i + 1] == x;
    }
  }

  lemma AscendingCons(n: string, rest: seq<string>)
    requires Ascending(rest) && forall x <- rest :: Before(n, x)
    ensures Ascending([n] + rest)
  {
    var names := [n] + rest;
    forall i, j | 0 <= i < j < |names| ensures Before(names[i], names[j]) {
      assert names[j] == rest[j - 1] && rest[j - 1] in rest;
      if i > 0 { assert names[i] == rest[i - 1]; }
    }
  }

  lemma {:induction false} InsertSorted(names: seq<string>, n: string)
    requires Ascending(names)
    ensures Ascending(Insert(names, n)) && Elements(Insert(names, n)) == Elements(names) + {n}
  {
    hide Before;
    if names != [] {
      AscendingTail(names);
      assert names == [names[0]] + names[1..];
      if n == names[0] {
      } else if Before(n, names[0]) {
        forall x | x in names ensures Before(n, x) {
          if x != names[0] { BeforeTransitive(n, names[0], x); }
        }
        AscendingCons(n, names);
      } else {
        BeforeTotal(n, names[0]);
        InsertSorted(names[1..], n);
        var r := Insert(names[1..], n);
        forall x | x in r ensures Before(names[0], x) { assert x in Elements(r); }
        AscendingCons(names[0], r);
        assert forall x :: x in [names[0]] + r <==> x == names[0] || x in Elements(r);
      }
    }
  }

  lemma FirstElement(b: seq<string>)
    requires b != []
    ensures b[0] in Elements(b)
  {}

  /** Sorted lists of the same names are the same list. */
  lemma {:induction false} SortedUnique(a: seq<string>, b: seq<string>)
    requires Ascending(a) && Ascending(b) && Elements(a) == Elements(b)
    ensures a == b
    decreases |a|
  {
    hide Before;
    if a == [] {
      if b != [] { FirstElement(b); }
    } else {
      assert a[0] in Elements(a) && a[0] in b;
      AscendingTail(a);
      AscendingTail(b);
      assert b[0] in Elements(b) && b[0] in a;
      FirstIsLeast(a, b[0]);
      FirstIsLeast(b, a[0]);
      BeforeTotal(a[0], b[0]);
      TailElements(a);
      TailElements(b);
      SortedUnique(a[1..], b[1..]);
      assert a == [a[0]] + a[1..] && b == [b[0]] + b[1..];
    }
  }

  lemma FirstIsLeast(a: seq<string>, x: string)
    requires Ascending(a) && x in a
    ensures x == a[0] || Before(a[0], x)
  {
    AscendingTail(a);
    assert a == [a[0]] + a[1..];
  }

  lemma TailElements(a: seq<string>)
    requires Ascending(a) && a != []
    ensures Elements(a[1..]) == Elements(a) - {a[0]}
  {
    hide Before;
    AscendingTail(a);
    NotBeforeSelf(a[0]);
    assert a == [a[0]] + a[1..];
  }

  /** The names in ascending order. */
  ghost function Sorted(names: set<string>): (r: seq<string>)
    ensures Ascending(r) && Elements(r) == names
    decreases |names|
  {
    if names == {} then []
    else
      var n :| n in names;
      InsertSorted(Sorted(names - {n}), n);
      Insert(Sorted(names - {n}), n)
  }

  /** `sorted`. */
  method SortNames(names: set<string>) returns (r: seq<string>)
    ensures r == Sorted(names)
  {
    hide Ascending, Elements, Before;
    r := [];
    var left := names;
    NothingSorted();
    while left != {}
      invariant left <= names && Ascending(r) && Elements(r) == names - left
      decreases |left|
    {
      var n :| n in left;
      InsertSorted(r, n);
      r := Insert(r, n);
      left := left - {n};
    }
    SortedUnique(r, Sorted(names));
  }

  lemma NothingSorted()
    ensures Ascending([]) && Elements([]) == {}
  {}
}
