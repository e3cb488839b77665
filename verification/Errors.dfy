/**
 Error trees, their flattening and the retry decision
 (utils/errors.go, utils/flatten_errors.go, server/scheduler.go).
 */
module Errors {
  import opened Sequences
  import opened Wrappers

  /**
   The shapes an error can take. `Wrapped` is `fmt.Errorf` with one `%w`; `Joined` is `errors.Join`, or
   `fmt.Errorf` with several `%w`. A `NonRetryable` has no `Unwrap` method: its inside cannot be searched.
   */
  datatype Error =
    | Plain(message: string)
    | NonRetryable(inner: Error)
    | Wrapped(context: string, cause: Error)
    | Joined(causes: seq<Error>)

  function DoNotRetry(e: Error): Error {
    NonRetryable(e)
  }

  /** The entries that are not nil, in order. */
  function Present(errs: seq<Option<Error>>): seq<Error> {
    if errs == [] then []
    else (if errs[0].Some? then [errs[0].value] else []) + Present(errs[1..])
  }

  /** `errors.Join`: nil when every argument is nil. */
  function Join(errs: seq<Option<Error>>): Option<Error> {
    var es := Present(errs);
    if es == [] then None else Some(Joined(es))
  }

  function Flatten(errs: seq<Option<Error>>): Option<Error> {
    if |errs| == 0 then None
    else if |errs| == 1 then errs[0]
    else Join(errs)
  }

  /** `errors.As` for the non-retryable type: depth first, a node before its causes. */
  function FindNonRetryable(e: Error): Option<Error>
    decreases e, 1
  {
    match e
    case Plain(_) => None
    case NonRetryable(_) => Some(e)
    case Wrapped(_, c) => FindNonRetryable(c)
    case Joined(cs) => FindFirst(cs)
  }

  function FindFirst(es: seq<Error>): Option<Error>
    decreases es, 0
  {
    if es == [] then None
    else
      var r := FindNonRetryable(es[0]);
      if r.Some? then r else FindFirst(es[1..])
  }

  /** What `schedulerHandleJob` does with a handler's result: remove the job file, or keep it for a retry. */
  predicate Removes(outcome: Option<Error>) {
    outcome.None? || FindNonRetryable(outcome.value).Some?
  }

  /** The node reached by unwrapping along `path`: an independent reading of what `Unwrap` exposes. */
  function NodeAt(e: Error, path: seq<nat>): Option<Error>
    decreases |path|
  {
    if path == [] then Some(e)
    else
      match e
      case Wrapped(_, c) => if path[0] == 0 then NodeAt(c, path[1..]) else None
      case Joined(cs) => if path[0] < |cs| then NodeAt(cs[path[0]], path[1..]) else None
      case _ => None
  }

  ghost predicate NonRetryableAt(e: Error, path: seq<nat>) {
    NodeAt(e, path).Some? && NodeAt(e, path).value.NonRetryable?
  }

  ghost predicate Visible(e: Error) {
    exists path :: NonRetryableAt(e, path)
  }

  /** The search finds a node exactly when some unwrapping path leads to a non-retryable one. */
  lemma {:induction false} FindIffVisible(e: Error)
    ensures FindNonRetryable(e).Some? <==> Visible(e)
    decreases e, 1
  {
    match e
    case Plain(_) =>
      forall path ensures !NonRetryableAt(e, path) {}
    case NonRetryable(_) =>
      assert NonRetryableAt(e, []);
    case Wrapped(_, c) =>
      FindIffVisible(c);
      if Visible(c) {
        var path :| NonRetryableAt(c, path);
        assert ([0] + path)[1..] == path;
        assert NonRetryableAt(e, [0] + path);
      }
      if Visible(e) {
        var path :| NonRetryableAt(e, path);
        assert NonRetryableAt(c, path[1..]);
      }
    case Joined(cs) =>
      FirstIffVisible(cs);
      if i: nat :| i < |cs| && Visible(cs[i]) {
        var path :| NonRetryableAt(cs[i], path);
        assert ([i] + path)[1..] == path;
        assert NonRetryableAt(e, [i] + path);
      }
      if Visible(e) {
        var path :| NonRetryableAt(e, path);
        assert NonRetryableAt(cs[path[0]], path[1..]);
      }
  }

  lemma {:induction false} FirstIffVisible(es: seq<Error>)
    ensures FindFirst(es).Some? <==> exists i: nat :: i < |es| && Visible(es[i])
    decreases es, 0
  {
    if es != [] {
      FindIffVisible(es[0]);
      FirstIffVisible(es[1..]);
      assert forall i: nat :: 0 < i < |es| ==> es[i] == es[1..][i - 1];
      if j: nat :| j < |es[1..]| && Visible(es[1..][j]) {
        assert es[1..][j] == es[j + 1];
      }
    }
  }

  /** Unwrapping composes: what is visible in a node reached by a path is visible in the whole tree. */
  lemma {:induction false} VisibleThroughContext(e: Error, path: seq<nat>)
    requires NodeAt(e, path).Some?
    requires Visible(NodeAt(e, path).value)
    ensures Visible(e)
    ensures Removes(Some(e))
    decreases |path|
  {
    if path != [] {
      match e {
        case Wrapped(_, c) =>
          VisibleThroughContext(c, path[1..]);
          var p :| NonRetryableAt(c, p);
          assert ([0] + p)[1..] == p;
          assert NonRetryableAt(e, [0] + p);
        case Joined(cs) =>
          VisibleThroughContext(cs[path[0]], path[1..]);
          var p :| NonRetryableAt(cs[path[0]], p);
          assert ([path[0]] + p)[1..] == p;
          assert NonRetryableAt(e, [path[0]] + p);
      }
    }
    FindIffVisible(e);
  }

  lemma {:induction false} PresentElements(errs: seq<Option<Error>>)
    ensures forall e :: e in Present(errs) <==> Some(e) in errs
    ensures Present(errs) == [] <==> forall i :: 0 <= i < |errs| ==> errs[i] == None
  {
    if errs != [] {
      PresentElements(errs[1..]);
      assert errs == [errs[0]] + errs[1..];
    }
  }

  lemma FlattenNil(errs: seq<Option<Error>>)
    ensures Flatten(errs) == None <==> forall i :: 0 <= i < |errs| ==> errs[i] == None
  {
    PresentElements(errs);
  }

  lemma {:induction false} PresentSplit(a: seq<Option<Error>>, b: seq<Option<Error>>)
    ensures Present(a + b) == Present(a) + Present(b)
  {
    if a == [] {
      assert a + b == b;
    } else {
      var head := if a[0].Some? then [a[0].value] else [];
      assert (a + b)[0] == a[0] && (a + b)[1..] == a[1..] + b;
      PresentSplit(a[1..], b);
      Regroup(head, Present(a[1..]), Present(b));
    }
  }

  /** Flattening keeps every error once, in order: a lone one as it is, several side by side. */
  lemma FlattenKeepsAll(a: seq<Option<Error>>, e: Error, b: seq<Option<Error>>)
    ensures a == [] && b == [] ==> Flatten(a + [Some(e)] + b) == Some(e)
    ensures a != [] || b != [] ==> Flatten(a + [Some(e)] + b) == Some(Joined(Present(a) + [e] + Present(b)))
    ensures Present(a + [None] + b) == Present(a) + Present(b)
  {
    var nothing: Option<Error> := None;
    assert [Some(e)][1..] == [] && [nothing][1..] == [];
    PresentSplit(a + [Some(e)], b);
    PresentSplit(a, [Some(e)]);
    PresentSplit(a + [None], b);
    PresentSplit(a, [None]);
    assert Present(a + [Some(e)] + b) == Present(a) + [e] + Present(b);
  }

  /**
   The retry decision on a flattened list: the job goes away exactly when nothing failed, or when some entry shows
   a non-retryable node, however many retryable entries stand beside it.
   */
  lemma FlattenDecision(errs: seq<Option<Error>>)
    ensures Removes(Flatten(errs)) <==>
              || (forall i :: 0 <= i < |errs| ==> errs[i] == None)
              || (exists e :: Some(e) in errs && Visible(e))
  {
    PresentElements(errs);
    if |errs| == 1 && errs[0].Some? {
      FindIffVisible(errs[0].value);
      assert errs[0] in errs;
      assert forall e :: Some(e) in errs ==> e == errs[0].value;
    } else if |errs| > 1 && Present(errs) != [] {
      var es := Present(errs);
      FirstIffVisible(es);
      assert FindNonRetryable(Joined(es)) == FindFirst(es);
      if e :| Some(e) in errs && Visible(e) {
        assert e in es;
        var i :| 0 <= i < |es| && es[i] == e;
      }
      if i: nat :| i < |es| && Visible(es[i]) {
        assert es[i] in es;
      }
    }
  }

  /** The order in which the destinations were tried cannot change the decision. */
  lemma DecisionIgnoresOrder(a: seq<Option<Error>>, b: seq<Option<Error>>)
    requires multiset(a) == multiset(b)
    ensures Removes(Flatten(a)) == Removes(Flatten(b))
    ensures Flatten(a) == None <==> Flatten(b) == None
  {
    assert forall x :: x in a <==> x in multiset(a);
    assert forall x :: x in b <==> x in multiset(b);
    FlattenDecision(a);
    FlattenDecision(b);
    FlattenNil(a);
    FlattenNil(b);
    if Flatten(a) == None {
      forall i | 0 <= i < |b| ensures b[i] == None { assert b[i] in a; }
    }
    if Flatten(b) == None {
      forall i | 0 <= i < |a| ensures a[i] == None { assert a[i] in b; }
    }
  }

  /** A missing download stays non-retryable under the two layers its callers wrap around it. */
  lemma MissingDownloadDecides(status: Error, request: string, download: string)
    ensures Removes(Some(Wrapped(download, Wrapped(request, DoNotRetry(status)))))
  {
    var e := Wrapped(download, Wrapped(request, DoNotRetry(status)));
    assert NonRetryableAt(e, [0, 0]) by {
      assert [0, 0][1..] == [0];
    }
    FindIffVisible(e);
  }
}
