// Printing a deployment's identity as a workflow ID, and reading it back.
module WorkflowIds {
  import opened Wrappers
  import opened Domain

  const PREFIX := "flink-deployment/"

  function WorkflowID(d: DeploymentIdentity): string {
    PREFIX + d.environment + "/" + d.namespace + "/" + d.name
  }

  /** The position of the first slash, or the length. */
  function FirstSlash(s: string): (i: nat)
    ensures i <= |s| && '/' !in s[..i]
    ensures i < |s| ==> s[i] == '/'
  {
    if s == [] || s[0] == '/' then 0
    else
      var i := 1 + FirstSlash(s[1..]);
      assert s[..i] == [s[0]] + s[1..][..i - 1];
      i
  }

  /** strings.SplitN(s, "/", n): at most n parts, the last one keeping its slashes. */
  function SplitN(s: string, n: nat): (parts: seq<string>)
    requires n > 0
  {
    var i := FirstSlash(s);
    if n == 1 || i == |s| then [s] else [s[..i]] + SplitN(s[i + 1..], n - 1)
  }

  /** deploymentIdentityFromWorkflowID; the ID does not carry the other identity fields. */
  function Parse(workflowID: string): Option<DeploymentIdentity> {
    if !(PREFIX <= workflowID) then None
    else
      var parts := SplitN(workflowID[|PREFIX|..], 3);
      if |parts| != 3 || parts[0] == "" || parts[1] == "" || parts[2] == "" then None
      else Some(DeploymentIdentity(parts[0], parts[1], parts[2], ""))
  }

  lemma FirstSlashOf(a: string, rest: string)
    requires '/' !in a
    ensures FirstSlash(a + "/" + rest) == |a|
  {
    var s := a + "/" + rest;
    assert s[|a|] == '/' && s[..|a|] == a;
    assert forall k | 0 <= k < |a| :: s[k] == a[k];
  }

  lemma SplitPrinted(a: string, b: string, c: string)
    requires '/' !in a && '/' !in b
    ensures SplitN(a + "/" + b + "/" + c, 3) == [a, b, c]
  {
    var s := a + "/" + b + "/" + c;
    var rest := b + "/" + c;
    assert s == a + "/" + rest;
    FirstSlashOf(a, rest);
    assert s[..|a|] == a && s[|a| + 1..] == rest;
    FirstSlashOf(b, c);
    assert rest[..|b|] == b && rest[|b| + 1..] == c;
    assert SplitN(rest, 2) == [b] + SplitN(c, 1);
  }

  /** One split of a string at its first slash. */
  lemma SplitStep(s: string, n: nat)
    requires n > 1 && |SplitN(s, n)| > 1
    ensures var i := FirstSlash(s);
            i < |s| && s == s[..i] + "/" + s[i + 1..] && SplitN(s, n) == [s[..i]] + SplitN(s[i + 1..], n - 1)
  {
  }

  lemma PrintedSplit(s: string)
    requires |SplitN(s, 3)| == 3
    ensures var p := SplitN(s, 3); s == p[0] + "/" + p[1] + "/" + p[2] && '/' !in p[0] && '/' !in p[1]
  {
    SplitStep(s, 3);
    var i := FirstSlash(s);
    var rest := s[i + 1..];
    SplitTail(s[..i], rest);
  }

  lemma SplitTail(head: string, rest: string)
    requires |SplitN(rest, 2)| == 2
    ensures var q := SplitN(rest, 2);
            rest == q[0] + "/" + q[1] && '/' !in q[0] && head + "/" + rest == head + "/" + q[0] + "/" + q[1]
  {
    SplitStep(rest, 2);
    var q := SplitN(rest, 2);
    assert head + "/" + (q[0] + "/" + q[1]) == head + "/" + q[0] + "/" + q[1];
  }

  /** The identities that a workflow ID can carry. */
  predicate Printable(d: DeploymentIdentity) {
    d.environment != "" && d.namespace != "" && d.name != "" && '/' !in d.environment && '/' !in d.namespace
  }

  /** Every workflow ID that parses prints back to itself. */
  lemma ParseThenPrint(workflowID: string)
    requires Parse(workflowID).Some?
    ensures WorkflowID(Parse(workflowID).value) == workflowID
    ensures Printable(Parse(workflowID).value)
  {
    hide SplitN, FirstSlash;
    var rest := workflowID[|PREFIX|..];
    PrintedSplit(rest);
    var p := SplitN(rest, 3);
    assert workflowID == PREFIX + rest;
    assert PREFIX + (p[0] + "/" + p[1] + "/" + p[2]) == PREFIX + p[0] + "/" + p[1] + "/" + p[2];
  }

  /** A printed identity parses back to itself exactly when its three parts are non-empty and the
      first two contain no slash; the name may. */
  lemma PrintThenParse(d: DeploymentIdentity)
    ensures Parse(WorkflowID(d)) == Some(DeploymentIdentity(d.environment, d.namespace, d.name, ""))
      <==> Printable(d)
  {
    var rest := d.environment + "/" + d.namespace + "/" + d.name;
    assert WorkflowID(d) == PREFIX + rest;
    assert WorkflowID(d)[|PREFIX|..] == rest;
    if '/' !in d.environment && '/' !in d.namespace {
      SplitPrinted(d.environment, d.namespace, d.name);
    }
    if Parse(WorkflowID(d)) == Some(DeploymentIdentity(d.environment, d.namespace, d.name, "")) {
      ParseThenPrint(WorkflowID(d));
    }
  }

  /** Different deployments have different workflow IDs. */
  lemma WorkflowIDInjective(d: DeploymentIdentity, e: DeploymentIdentity)
    requires Printable(d) && Printable(e)
    ensures WorkflowID(d) == WorkflowID(e) <==>
              d.environment == e.environment && d.namespace == e.namespace && d.name == e.name
  {
    PrintThenParse(d);
    PrintThenParse(e);
  }

  function Spelled(d: DeploymentIdentity): string {
    "flink-deployment/" + d.environment + "/" + d.namespace + "/" + d.name
  }

  /** The strings that parse are those of this form, and what they parse to is what they spell. */
  lemma ParsesExactly(workflowID: string)
    ensures Parse(workflowID).Some? <==> exists d :: Printable(d) && workflowID == Spelled(d)
    ensures Parse(workflowID).Some? ==> workflowID == Spelled(Parse(workflowID).value)
  {
    if Parse(workflowID).Some? {
      ParseThenPrint(workflowID);
      assert Printable(Parse(workflowID).value) && workflowID == Spelled(Parse(workflowID).value);
    }
    if d :| Printable(d) && workflowID == Spelled(d) {
      PrintThenParse(d);
    }
    hide Parse;
  }
}
