/** Small facts about sequences shared by the other modules. */
module Sequences {
  predicate NoDuplicates<T(==)>(s: seq<T>) {
    forall i, j :: 0 <= i < j < |s| ==> s[i] != s[j]
  }

  lemma Regroup<T>(a: seq<T>, b: seq<T>, c: seq<T>)
    ensures (a + b) + c == a + (b + c)
  {}

  lemma SplitLast<T>(a: seq<T>, b: seq<T>)
    requires b != []
    ensures b == b[..|b| - 1] + [b[|b| - 1]]
    ensures a + b == (a + b[..|b| - 1]) + [b[|b| - 1]]
  {}

  lemma EmptyIffNone<T>(s: seq<T>)
    ensures s == [] <==> forall x :: x !in s
  {
    if s != [] {
      assert s[0] in s;
    }
  }

  lemma OnlyElement<T>(s: seq<T>, x: T)
    requires |s| == 1 && x in s
    ensures x == s[0]
  {}

  /** One visit to each name, in some order: how Go walks the keys of a map. */
  ghost predicate Visits(visited: seq<string>, names: set<string>) {
    NoDuplicates(visited) && forall a :: a in visited <==> a in names
  }

  lemma VisitsGrow(visited: seq<string>, names: set<string>, name: string)
    requires Visits(visited, names) && name !in names
    ensures Visits(visited + [name], names + {name})
  {}

  lemma {:induction false} SetAsSeq(s: set<string>) returns (r: seq<string>)
    ensures Visits(r, s)
    decreases s
  {
    if s == {} {
      r := [];
    } else {
      var x :| x in s;
      r := SetAsSeq(s - {x});
      VisitsGrow(r, s - {x}, x);
      assert s == (s - {x}) + {x};
      r := r + [x];
    }
  }

  /** Any name can be visited last. */
  lemma VisitsEndingIn(names: set<string>, last: string) returns (front: seq<string>)
    requires last in names
    ensures Visits(front + [last], names)
  {
    front := SetAsSeq(names - {last});
    VisitsGrow(front, names - {last}, last);
    assert (names - {last}) + {last} == names;
  }
}
