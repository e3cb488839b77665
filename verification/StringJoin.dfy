/**
 The generic string join that computes its output length first, with guards against overflow (utils/join.go).
 */
module StringJoin {
  import opened Wrappers

  const MAX_INT: int := 0x7FFF_FFFF_FFFF_FFFF

  /** Go's `int`. Staying inside this type is checked at every operation below. */
  newtype int64 = x: int | -MAX_INT - 1 <= x <= MAX_INT

  /** The join itself. */
  function Joined(elems: seq<string>, sep: string): string {
    if |elems| == 0 then ""
    else if |elems| == 1 then elems[0]
    else Joined(elems[..|elems| - 1], sep) + sep + elems[|elems| - 1]
  }

  /** Where the separators stand: one between what is joined first and what is joined last. */
  lemma {:induction false} JoinedSplit(a: seq<string>, b: seq<string>, sep: string)
    requires a != [] && b != []
    ensures Joined(a + b, sep) == Joined(a, sep) + (sep + Joined(b, sep))
  {
    var front, last := b[..|b| - 1], b[|b| - 1];
    assert (a + b)[..|a + b| - 1] == a + front;
    if |b| == 1 {
      assert a + front == a;
      assert Joined(a, sep) + sep + last == Joined(a, sep) + (sep + last);
    } else {
      JoinedSplit(a, front, sep);
      assert Joined(a, sep) + (sep + Joined(front, sep)) + sep + last
             == Joined(a, sep) + (sep + (Joined(front, sep) + sep + last));
    }
  }

  /** Joining one element, or none, adds nothing. */
  lemma JoinedOfFew(s: string, sep: string)
    ensures Joined([], sep) == "" && Joined([s], sep) == s
  {}

  function TotalLength(elems: seq<string>): nat {
    if elems == [] then 0 else TotalLength(elems[..|elems| - 1]) + |elems[|elems| - 1]|
  }

  lemma {:induction false} JoinedLength(elems: seq<string>, sep: string)
    requires elems != []
    ensures |Joined(elems, sep)| == |sep| * (|elems| - 1) + TotalLength(elems)
  {
    var front := elems[..|elems| - 1];
    if |elems| == 1 {
      assert front == [];
    } else {
      JoinedLength(front, sep);
      assert |sep| * (|elems| - 1) == |sep| * (|elems| - 2) + |sep|;
    }
  }

  lemma {:induction false} TotalLengthGrows(elems: seq<string>, i: nat)
    requires i <= |elems|
    ensures TotalLength(elems[..i]) <= TotalLength(elems)
    ensures i < |elems| ==> TotalLength(elems[..i + 1]) == TotalLength(elems[..i]) + |elems[i]|
    decreases |elems| - i
  {
    if i == |elems| {
      assert elems[..i] == elems;
    } else {
      assert elems[..i + 1][..i] == elems[..i];
      TotalLengthGrows(elems, i + 1);
    }
  }

  /** What the separator guard lets through. */
  predicate SeparatorPasses(count: nat, sep: string) {
    count <= 1 || sep == "" || |sep| < MAX_INT / (count - 1)
  }

  lemma Quotient(m: nat, gaps: nat)
    requires gaps > 0
    ensures (m / gaps) * gaps <= m < (m / gaps + 1) * gaps
  {}

  lemma PositiveFactor(x: int, gaps: nat)
    requires gaps > 0 && x * gaps > 0
    ensures x > 0
  {}

  lemma SmallerProduct(a: nat, b: nat, gaps: nat)
    requires a <= b
    ensures a * gaps <= b * gaps
  {}

  lemma GuardPreventsOverflow(length: nat, gaps: nat)
    requires gaps > 0 && length < MAX_INT / gaps
    ensures length * gaps < MAX_INT
  {
    Quotient(MAX_INT, gaps);
    SmallerProduct(length + 1, MAX_INT / gaps, gaps);
  }

  /** A separator whose gaps fit is no longer than the quotient. */
  lemma FittingSeparator(length: nat, gaps: nat)
    requires gaps > 0 && length * gaps <= MAX_INT
    ensures length <= MAX_INT / gaps
  {
    Quotient(MAX_INT, gaps);
    PositiveFactor(MAX_INT / gaps + 1 - length, gaps);
  }

  /** Lengths of Go strings and slices fit Go's `int`. */
  predicate Representable(elems: seq<string>, sep: string) {
    |elems| <= MAX_INT && |sep| <= MAX_INT && forall i :: 0 <= i < |elems| ==> |elems[i]| <= MAX_INT
  }

  /** The separators' share of the output, or `None` where the guard panics. */
  method SeparatorsLength(count: int64, sep: string) returns (r: Option<int64>)
    requires count > 1 && |sep| <= MAX_INT
    ensures r.Some? <==> SeparatorPasses(count as int, sep)
    ensures r.Some? ==> r.value as int == |sep| * (count as int - 1)
  {
    var length := |sep| as int64;
    if length > 0 {
      if length >= MAX_INT as int64 / (count - 1) {
        return None;
      }
      GuardPreventsOverflow(|sep|, count as int - 1);
      return Some(length * (count - 1));
    }
    return Some(0);
  }

  /** The first part of `Join`: the output length, or `None` where it panics. */
  method OutputLength(elems: seq<string>, sep: string) returns (r: Option<int64>)
    requires Representable(elems, sep) && |elems| > 1
    ensures r.Some? <==> SeparatorPasses(|elems|, sep) && |Joined(elems, sep)| <= MAX_INT
    ensures r.Some? ==> r.value as int == |Joined(elems, sep)|
  {
    JoinedLength(elems, sep);
    ghost var separators: nat := |sep| * (|elems| - 1);
    r := SeparatorsLength(|elems| as int64, sep);
    if r == None {
      return;
    }
    var n := r.value;
    for i := 0 to |elems|
      invariant n as int == separators + TotalLength(elems[..i])
    {
      TotalLengthGrows(elems, i);
      TotalLengthGrows(elems, i + 1);
      var size := |elems[i]| as int64;
      if size > MAX_INT as int64 - n {
        return None;
      }
      n := n + size;
    }
    assert elems[..|elems|] == elems;
    return Some(n);
  }

  /**
   `Join`; `None` is its panic. It returns exactly when the separator passes its guard and the output length fits, the
   result is the join, and the length reserved for it, computed without overflow, is its own.
   */
  method Join(elems: seq<string>, sep: string) returns (r: Option<string>, reserved: int64)
    requires Representable(elems, sep)
    ensures r.Some? <==> |elems| <= 1 || (SeparatorPasses(|elems|, sep) && |Joined(elems, sep)| <= MAX_INT)
    ensures r.Some? ==> r.value == Joined(elems, sep)
    ensures r.Some? && |elems| > 1 ==> reserved as int == |r.value|
  {
    if |elems| == 0 {
      return Some(""), 0;
    }
    if |elems| == 1 {
      return Some(elems[0]), 0;
    }
    var n := OutputLength(elems, sep);
    if n == None {
      return None, 0;
    }
    var b := elems[0];
    for i := 1 to |elems|
      invariant b == Joined(elems[..i], sep)
    {
      assert elems[..i + 1][..i] == elems[..i];
      b := b + sep;
      b := b + elems[i];
    }
    assert elems[..|elems|] == elems;
    return Some(b), n.value;
  }

  /** The separator guard is one step too strict: it refuses some joins whose output would fit. */
  lemma RefusedThoughItFits() returns (elems: seq<string>, sep: string)
    ensures |elems| > 1 && Representable(elems, sep)
    ensures |Joined(elems, sep)| <= MAX_INT && !SeparatorPasses(|elems|, sep)
  {
    elems, sep := ["", ""], seq(MAX_INT, _ => ',');
    assert elems[..1] == [""];
  }

  /** Exactly the outputs refused without need: the separator's length is the largest that fits its gaps. */
  lemma RefusedWithoutNeedIff(elems: seq<string>, sep: string)
    requires |elems| > 1 && |Joined(elems, sep)| <= MAX_INT
    ensures !SeparatorPasses(|elems|, sep) <==> sep != "" && |sep| == MAX_INT / (|elems| - 1)
  {
    JoinedLength(elems, sep);
    FittingSeparator(|sep|, |elems| - 1);
  }
}
