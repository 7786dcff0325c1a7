/** The two text classifiers of the extension: which ended tasks count as failed
    test runs, and which chunks of terminal output look like a failure. */
module Classifiers {
  import opened Text

  datatype Option<T> = None | Some(value: T)

  /** The words a lower-cased task name is searched for. */
  const TestVocabulary: seq<string> :=
    ["test", "jest", "mocha", "pytest", "vitest", "spec", "cargo test", "go test"]

  /** The failure signatures a lower-cased terminal chunk is searched for. */
  const FailurePatterns: seq<string> :=
    ["tests failed", "test failed", "failing tests", "assertion error", "assertionerror",
     "testfailure", "test failure", "panic:", "fatal:"]

  /** The task name, lower-cased, contains one of the test words: some window of
      the name lower-cases to a test word. */
  function IsTestTask(name: string): (b: bool)
    ensures b <==> exists k, i :: 0 <= k < |TestVocabulary| && WindowMatches(name, TestVocabulary[k], i)
  {
    ContainsAnyLowerIffWindow(name, TestVocabulary);
    ContainsAny(Lower(name), TestVocabulary)
  }

  /** An ended task process triggers the alert: a test-like task whose exit code is
      defined (`!== undefined`) and non-zero. */
  function TaskFailure(name: string, exitCode: Option<int>): (b: bool)
    ensures b <==> IsTestTask(name) && exitCode.Some? && exitCode.value != 0
  {
    IsTestTask(name) && exitCode != Some(0) && exitCode != None
  }

  /** A terminal chunk, lower-cased, contains one of the failure signatures: some
      window of the chunk lower-cases to a signature. */
  function IsFailureOutput(data: string): (b: bool)
    ensures b <==> exists k, i :: 0 <= k < |FailurePatterns| && WindowMatches(data, FailurePatterns[k], i)
  {
    ContainsAnyLowerIffWindow(data, FailurePatterns);
    ContainsAny(Lower(data), FailurePatterns)
  }

  /** A word with "test" at `at` is only found where "test" is. */
  lemma SubwordOfTest(l: string, w: string, at: nat)
    requires at + 4 <= |w| && w[at..at + 4] == "test"
    ensures Contains(l, w) ==> Contains(l, "test")
  {
    assert OccursAt(w, "test", at);
    if Contains(l, w) {
      ContainsTransitive(l, w, "test");
    }
  }

  /** The eight-word vocabulary is equivalent to four words: "pytest", "vitest",
      "cargo test" and "go test" all contain "test". */
  lemma TestVocabularyReduces(name: string)
    ensures IsTestTask(name) <==>
      var l := Lower(name);
      Contains(l, "test") || Contains(l, "jest") || Contains(l, "mocha") || Contains(l, "spec")
  {
    var l := Lower(name);
    var v := TestVocabulary;
    SubwordOfTest(l, v[3], 2);
    SubwordOfTest(l, v[4], 2);
    SubwordOfTest(l, v[6], 6);
    SubwordOfTest(l, v[7], 3);
    assert v[0] == "test" && v[1] == "jest" && v[2] == "mocha" && v[5] == "spec";
  }

  /** The task classifier ignores ASCII case. */
  lemma TestTaskIgnoresCase(a: string, b: string)
    requires Lower(a) == Lower(b)
    ensures IsTestTask(a) <==> IsTestTask(b)
  {
  }

  /** Surrounding output does not hide a failure in a chunk. */
  lemma FailureOutputExtends(before: string, data: string, after: string)
    requires IsFailureOutput(data)
    ensures IsFailureOutput(before + data + after)
  {
    ContainsAnyLowerExtends(before, data, after, FailurePatterns);
  }

  /** A task named "Integration-Test-Suite" that exits with code 1 triggers: its
      window "Test" lower-cases to "test". */
  lemma IntegrationTestSuiteTriggers(name: string)
    requires name == "Integration-Test-Suite"
    ensures TaskFailure(name, Some(1))
  {
    var w := name[12..16];
    assert w == "Test";
    assert Lower(w) == "test";
    assert WindowMatches(name, TestVocabulary[0], 12);
    WindowIffOccurs(name, TestVocabulary[0], 12);
    ContainsAnyMember(Lower(name), TestVocabulary, 0);
  }

  /** A task named "Build" never triggers, whatever its exit code: it lacks the
      first letter of every test word. */
  lemma BuildNeverTriggers(name: string, exitCode: Option<int>)
    requires name == "Build"
    ensures !TaskFailure(name, exitCode)
  {
    var l := Lower(name);
    assert l == "build" by {
      assert name[0] == 'B';
    }
    MissingCharsNoMatch(l, TestVocabulary, "tjmpvscg");
  }

  /** A defined zero exit code, or none, never triggers. */
  lemma SuccessNeverTriggers(name: string)
    ensures !TaskFailure(name, Some(0)) && !TaskFailure(name, None)
  {
  }

  /** "PANIC: runtime error" matches "panic:" once lower-cased. */
  lemma PanicMatches(data: string)
    requires data == "PANIC: runtime error"
    ensures IsFailureOutput(data)
  {
    var w := data[..6];
    assert w == "PANIC:";
    assert Lower(w) == "panic:";
    assert WindowMatches(data, FailurePatterns[7], 0);
    WindowIffOccurs(data, FailurePatterns[7], 0);
    ContainsAnyMember(Lower(data), FailurePatterns, 7);
  }

  /** Every signature holds a 't' or a ':', so a chunk that has neither, in either
      case, never matches. */
  lemma NoFailureWithoutTOrColon(data: string)
    requires forall i :: 0 <= i < |data| ==> data[i] !in "tT:"
    ensures !IsFailureOutput(data)
  {
    var l := Lower(data);
    assert 't' !in l && ':' !in l by {
      forall i | 0 <= i < |l|
        ensures l[i] != 't' && l[i] != ':'
      {
        assert data[i] !in "tT:";
      }
    }
    MissingCharsNoMatch(l, FailurePatterns, "tttttt" + "t::");
  }

  /** "Build succeeded" matches none of the signatures. */
  lemma BuildSucceededDoesNotMatch(data: string)
    requires data == "Build succeeded"
    ensures !IsFailureOutput(data)
  {
    assert forall i :: 0 <= i < |data| ==> data[i] !in "tT:";
    NoFailureWithoutTOrColon(data);
  }
}
