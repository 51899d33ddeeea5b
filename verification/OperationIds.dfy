/** The names that tie an operation to the submission it is about. */
module OperationIds {
  import opened KeyOrder

  const PARENT := "presentations/submissions"
  const RESPONSES := "credentials/responses"
  const OPERATION_NAMESPACE := "operation_submission"
  const RESPONSE_NAMESPACE := "operation_credential_response"

  function LastSlash(s: string): (i: int)
    ensures -1 <= i < |s|
    decreases |s|
  {
    if s == "" then -1 else if s[|s| - 1] == '/' then |s| - 1 else LastSlash(s[..|s| - 1])
  }

  function IDFromSubmissionID(id: string): string { PARENT + "/" + id }

  function IDFromResponseID(id: string): string { RESPONSES + "/" + id }

  function StatusObjectID(opID: string): string {
    if LastSlash(opID) == -1 then "" else opID[LastSlash(opID) + 1..]
  }

  function FromParent(parent: string): string {
    if parent == PARENT then OPERATION_NAMESPACE else if parent == RESPONSES then RESPONSE_NAMESPACE else ""
  }

  /** The namespace of an operation, empty when its parent is neither resource. */
  function FromID(opID: string): string {
    if LastSlash(opID) == -1 then "" else FromParent(opID[..LastSlash(opID)])
  }

  lemma {:induction false} LastSlashSplits(parent: string, id: string)
    ensures LastSlash(parent + "/" + id) == if '/' in id then |parent| + 1 + LastSlash(id) else |parent|
    ensures '/' in id <==> LastSlash(id) >= 0
    decreases |id|
  {
    var s := parent + "/" + id;
    if id != "" {
      assert s[..|s| - 1] == parent + "/" + id[..|id| - 1];
      assert forall c :: c in id <==> c in id[..|id| - 1] || c == id[|id| - 1];
      LastSlashSplits(parent, id[..|id| - 1]);
    }
  }

  /** Cancelling an operation finds the submission it was created for, and finds the operation in
      the submissions' namespace, exactly when the submission's id has no slash in it. */
  lemma NamesMatch(id: string)
    ensures StatusObjectID(IDFromSubmissionID(id)) == id <==> '/' !in id
    ensures FromID(IDFromSubmissionID(id)) == (if '/' in id then "" else "operation_submission")
    ensures HasPrefix(IDFromSubmissionID(id), PARENT) && IDFromSubmissionID(id) == "presentations/submissions/" + id
  {
    assert PARENT + "/" == "presentations/submissions/";
    LastSlashSplits(PARENT, id);
    var opID := IDFromSubmissionID(id);
    if '/' in id {
      assert |opID[..LastSlash(opID)]| > |PARENT| && opID[..LastSlash(opID)][0] == PARENT[0];
    } else {
      assert opID[..|PARENT|] == PARENT;
    }
  }

  /** The same of the operation of an application, in a namespace of its own. */
  lemma ResponseNamesMatch(id: string)
    ensures StatusObjectID(IDFromResponseID(id)) == id <==> '/' !in id
    ensures FromID(IDFromResponseID(id)) == (if '/' in id then "" else "operation_credential_response")
    ensures HasPrefix(IDFromResponseID(id), RESPONSES) && !HasPrefix(IDFromResponseID(id), PARENT)
    ensures IDFromResponseID(id) == "credentials/responses/" + id
  {
    assert RESPONSES + "/" == "credentials/responses/";
    LastSlashSplits(RESPONSES, id);
    var opID := IDFromResponseID(id);
    assert opID[0] == RESPONSES[0] && PARENT[0] != RESPONSES[0];
    if '/' in id {
      assert |opID[..LastSlash(opID)]| > |RESPONSES| && opID[..LastSlash(opID)][0] == RESPONSES[0];
    }
    assert opID[..|RESPONSES|] == RESPONSES;
  }

  /** An operation in the submissions' namespace names the submission after its last slash. */
  lemma NamespaceDecides(opID: string)
    ensures FromID(opID) == OPERATION_NAMESPACE <==> opID == IDFromSubmissionID(StatusObjectID(opID)) && '/' !in StatusObjectID(opID)
  {
    if LastSlash(opID) != -1 && opID[..LastSlash(opID)] == PARENT {
      var id := StatusObjectID(opID);
      SlashAt(opID);
      assert opID == IDFromSubmissionID(id);
      LastSlashSplits(PARENT, id);
    } else if opID == IDFromSubmissionID(StatusObjectID(opID)) {
      NamesMatch(StatusObjectID(opID));
    }
  }

  lemma {:induction false} SlashAt(s: string)
    ensures LastSlash(s) >= 0 ==> s[LastSlash(s)] == '/'
    decreases |s|
  {
    if s != "" {
      SlashAt(s[..|s| - 1]);
    }
  }

  lemma {:induction false} NoSlashAfter(s: string)
    ensures '/' in s <==> LastSlash(s) >= 0
    ensures forall i :: LastSlash(s) < i < |s| ==> s[i] != '/'
    decreases |s|
  {
    if s != "" {
      assert forall c :: c in s <==> c in s[..|s| - 1] || c == s[|s| - 1];
      NoSlashAfter(s[..|s| - 1]);
    }
  }

  /** The object id is what follows the last slash, and empty, like the namespace, without a slash. */
  lemma ObjectIDDecides(opID: string)
    ensures '/' !in StatusObjectID(opID)
    ensures '/' in opID ==> opID == opID[..|opID| - |StatusObjectID(opID)| - 1] + "/" + StatusObjectID(opID)
    ensures '/' !in opID ==> StatusObjectID(opID) == "" && FromID(opID) == ""
  {
    NoSlashAfter(opID);
    SlashAt(opID);
  }
}
