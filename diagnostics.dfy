/** Counting the Error-severity diagnostics of a diagnostics-changed event. The
    event names a sequence of resources; for each, the host's current diagnostics
    are given here as the sequence of their severities. */
module Diagnostics {

  datatype Severity = Error | Warning | Information | Hint

  /** `diagnostics.filter(d => d.severity === Error).length` for one resource. */
  function ErrorCount(ds: seq<Severity>): (n: nat)
    ensures n == multiset(ds)[Error]
    ensures n <= |ds|
    decreases |ds|
  {
    if ds == [] then 0
    else
      assert ds == [ds[0]] + ds[1..];
      (if ds[0] == Error then 1 else 0) + ErrorCount(ds[1..])
  }

  /** All diagnostics of the event's resources, in event order. */
  function Flatten(perUri: seq<seq<Severity>>): seq<Severity>
    decreases |perUri|
  {
    if perUri == [] then [] else Flatten(perUri[..|perUri| - 1]) + perUri[|perUri| - 1]
  }

  /** The sum, over the event's resources, of their Error counts: the number of
      Error diagnostics among all of them. */
  function TotalErrors(perUri: seq<seq<Severity>>): (n: nat)
    ensures n == multiset(Flatten(perUri))[Error]
    decreases |perUri|
  {
    if perUri == [] then 0
    else TotalErrors(perUri[..|perUri| - 1]) + ErrorCount(perUri[|perUri| - 1])
  }

  /** One more resource adds its own Error count. */
  lemma TotalErrorsStep(perUri: seq<seq<Severity>>, k: nat)
    requires k < |perUri|
    ensures TotalErrors(perUri[..k + 1]) == TotalErrors(perUri[..k]) + ErrorCount(perUri[k])
  {
    assert perUri[..k + 1][..k] == perUri[..k];
  }

  /** The handler's accumulating loop over the event's resources. */
  method SumErrors(perUri: seq<seq<Severity>>) returns (totalErrors: nat)
    ensures totalErrors == TotalErrors(perUri)
    ensures totalErrors == multiset(Flatten(perUri))[Error]
  {
    totalErrors := 0;
    for k := 0 to |perUri|
      invariant totalErrors == TotalErrors(perUri[..k])
    {
      TotalErrorsStep(perUri, k);
      totalErrors := totalErrors + ErrorCount(perUri[k]);
    }
    assert perUri[..|perUri|] == perUri;
  }

  /** Splitting the resources of an event splits its total. */
  lemma {:induction false} TotalErrorsAppend(a: seq<seq<Severity>>, b: seq<seq<Severity>>)
    ensures TotalErrors(a + b) == TotalErrors(a) + TotalErrors(b)
    decreases |b|
  {
    if b != [] {
      var init := b[..|b| - 1];
      assert (a + b)[..|a + b| - 1] == a + init;
      assert (a + b)[|a + b| - 1] == b[|b| - 1];
      TotalErrorsAppend(a, init);
    } else {
      assert a + b == a;
    }
  }

  /** A total of zero means that no resource of the event has an Error. */
  lemma {:induction false} NoErrorsIffZero(perUri: seq<seq<Severity>>)
    ensures TotalErrors(perUri) == 0 <==>
      forall k, j :: 0 <= k < |perUri| && 0 <= j < |perUri[k]| ==> perUri[k][j] != Error
    decreases |perUri|
  {
    if perUri != [] {
      var init := perUri[..|perUri| - 1];
      var last := perUri[|perUri| - 1];
      NoErrorsIffZero(init);
      assert forall k :: 0 <= k < |init| ==> init[k] == perUri[k];
      if ErrorCount(last) > 0 {
        assert Error in multiset(last);
        var j :| 0 <= j < |last| && last[j] == Error;
        assert perUri[|perUri| - 1][j] == Error;
      } else {
        forall j | 0 <= j < |last|
          ensures last[j] != Error
        {
          assert last[j] in multiset(last);
        }
      }
    }
  }
}
