/** The signature-help part of the language server
    (`language_server/common/parts/signature_help.py`): choosing the answer
    for `textDocument/signatureHelp` among the collectors' answers, and
    announcing the trigger characters. Logging of raised answers is not
    modelled. */
module SignatureMerge {
  import opened Wrappers
  import opened LspTypes

  /** Looking up a document the server does not know raises. */
  const KeyError := "KeyError"

  predicate Answered(c: Collected<SignatureHelp>) {
    c.Returned? && c.value.Some?
  }

  /** The last answer that is not `None` and did not raise. */
  function LastAnswer(results: seq<Collected<SignatureHelp>>): Option<SignatureHelp> {
    if results == [] then None
    else if Answered(results[|results| - 1]) then results[|results| - 1].value
    else LastAnswer(results[..|results| - 1])
  }

  /** There is a last answer exactly when some collector answered. */
  lemma {:induction false} LastAnswerNone(results: seq<Collected<SignatureHelp>>)
    ensures LastAnswer(results).None? <==> forall i :: 0 <= i < |results| ==> !Answered(results[i])
  {
    if results != [] && !Answered(results[|results| - 1]) {
      var n := |results| - 1;
      LastAnswerNone(results[..n]);
      assert forall i :: 0 <= i < n ==> results[..n][i] == results[i];
    }
  }

  /** An answer followed only by raised or empty answers is the one used;
      everything before it is ignored. */
  lemma {:induction false} LastAnswerWins(before: seq<Collected<SignatureHelp>>, help: SignatureHelp, after: seq<Collected<SignatureHelp>>)
    requires forall i :: 0 <= i < |after| ==> !Answered(after[i])
    ensures LastAnswer(before + [Returned(Some(help))] + after) == Some(help)
    decreases |after|
  {
    var all := before + [Returned(Some(help))] + after;
    if after == [] {
      assert all[|all| - 1] == Returned(Some(help));
    } else {
      var after' := after[..|after| - 1];
      assert all[..|all| - 1] == before + [Returned(Some(help))] + after';
      assert all[|all| - 1] == after[|after| - 1];
      LastAnswerWins(before, help, after');
    }
  }

  /** `_text_document_signature_help`: the last answer, if it offers any
      signature. */
  method TextDocumentSignatureHelp(documentKnown: bool, results: seq<Collected<SignatureHelp>>)
    returns (r: Result<Option<SignatureHelp>, string>)
    ensures !documentKnown ==> r == Failure(KeyError)
    ensures documentKnown ==> r.Success?
    ensures r.Success? ==> (r.value.Some? <==> LastAnswer(results).Some? && LastAnswer(results).value.signatures != [])
    ensures r.Success? && r.value.Some? ==> r.value == LastAnswer(results)
  {
    if !documentKnown {
      return Failure(KeyError);
    }
    var answers: seq<SignatureHelp> := [];
    var i := 0;
    while i < |results|
      invariant i <= |results|
      invariant (answers == []) == LastAnswer(results[..i]).None?
      invariant answers != [] ==> LastAnswer(results[..i]) == Some(answers[|answers| - 1])
    {
      assert results[..i + 1][..i] == results[..i];
      var result := results[i];
      if result.Returned? && result.value.Some? {
        answers := answers + [result.value.value];
      }
      i := i + 1;
    }
    assert results[..i] == results;
    if |answers| > 0 {
      if answers[|answers| - 1].signatures != [] {
        return Success(Some(answers[|answers| - 1]));
      }
    }
    return Success(None);
  }

  /** A collector's trigger and retrigger characters; `None` for a
      collector that declares none. */
  datatype CollectorInfo = CollectorInfo(triggerCharacters: Option<seq<string>>, retriggerCharacters: Option<seq<string>>)

  /** The chained trigger characters of the collectors that declare them. */
  function Triggers(collectors: seq<CollectorInfo>): seq<string> {
    if collectors == [] then []
    else
      var last := collectors[|collectors| - 1];
      Triggers(collectors[..|collectors| - 1]) + (if last.triggerCharacters.Some? then last.triggerCharacters.value else [])
  }

  function Retriggers(collectors: seq<CollectorInfo>): seq<string> {
    if collectors == [] then []
    else
      var last := collectors[|collectors| - 1];
      Retriggers(collectors[..|collectors| - 1]) + (if last.retriggerCharacters.Some? then last.retriggerCharacters.value else [])
  }

  /** A character triggers exactly when some collector declares it. */
  lemma {:induction false} TriggersMembers(collectors: seq<CollectorInfo>, c: string)
    ensures c in Triggers(collectors) <==>
      exists i :: 0 <= i < |collectors| && collectors[i].triggerCharacters.Some? && c in collectors[i].triggerCharacters.value
    ensures c in Retriggers(collectors) <==>
      exists i :: 0 <= i < |collectors| && collectors[i].retriggerCharacters.Some? && c in collectors[i].retriggerCharacters.value
  {
    if collectors != [] {
      var n := |collectors| - 1;
      TriggersMembers(collectors[..n], c);
      assert forall i :: 0 <= i < n ==> collectors[..n][i] == collectors[i];
    }
  }

  /** The collectors' characters are chained in collector order. */
  lemma {:induction false} TriggersAppend(a: seq<CollectorInfo>, b: seq<CollectorInfo>)
    ensures Triggers(a + b) == Triggers(a) + Triggers(b)
    ensures Retriggers(a + b) == Retriggers(a) + Retriggers(b)
    decreases |b|
  {
    if b == [] {
      assert a + b == a;
    } else {
      var b' := b[..|b| - 1];
      assert (a + b)[..|a + b| - 1] == a + b';
      TriggersAppend(a, b');
    }
  }

  function NoneIfEmpty(s: seq<string>): (r: Option<seq<string>>)
    ensures r.None? <==> s == []
    ensures r.Some? ==> r.value == s
  {
    if s == [] then None else Some(s)
  }

  /** `extend_capabilities`: with some collector registered, the provider
      carries the chained characters, `None` for an empty list. */
  method ExtendCapabilities(collectors: seq<CollectorInfo>, capabilities: ServerCapabilities)
    modifies capabilities
    ensures capabilities.signatureHelpProvider ==
      if collectors != [] then Some(SignatureHelpOptions(NoneIfEmpty(Triggers(collectors)), NoneIfEmpty(Retriggers(collectors))))
      else old(capabilities.signatureHelpProvider)
    ensures capabilities.documentSymbolProvider == old(capabilities.documentSymbolProvider)
    ensures capabilities.foldingRangeProvider == old(capabilities.foldingRangeProvider)
  {
    if |collectors| > 0 {
      var triggerChars := Triggers(collectors);
      var retriggerChars := Retriggers(collectors);
      capabilities.signatureHelpProvider := Some(SignatureHelpOptions(
        if triggerChars != [] then Some(triggerChars) else None,
        if retriggerChars != [] then Some(retriggerChars) else None));
    }
  }
}
