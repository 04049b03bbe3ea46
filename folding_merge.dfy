/** The folding-range part of the language server
    (`language_server/common/parts/folding_range.py`): the answers of all
    collectors joined for `textDocument/foldingRange`, and the provider
    announcement. Logging of raised answers is not modelled. */
module FoldingMerge {
  import opened Wrappers
  import opened LspTypes

  /** Looking up a document the server does not know raises. */
  const KeyError := "KeyError"

  /** What one collector adds: its list, or nothing when it raised or
      returned `None`. */
  function Given(c: Collected<seq<FoldingRange>>): seq<FoldingRange> {
    if c.Returned? && c.value.Some? then c.value.value else []
  }

  /** The returned lists, joined in collector order. */
  function Joined(results: seq<Collected<seq<FoldingRange>>>): seq<FoldingRange> {
    if results == [] then []
    else Joined(results[..|results| - 1]) + Given(results[|results| - 1])
  }

  /** The answers are joined in collector order. */
  lemma {:induction false} JoinedAppend(a: seq<Collected<seq<FoldingRange>>>, b: seq<Collected<seq<FoldingRange>>>)
    ensures Joined(a + b) == Joined(a) + Joined(b)
    decreases |b|
  {
    if b == [] {
      assert a + b == a;
    } else {
      var b' := b[..|b| - 1];
      assert Joined(a + b) == Joined(a + b') + Given(b[|b| - 1]) by {
        assert (a + b)[..|a + b| - 1] == a + b';
        assert (a + b)[|a + b| - 1] == b[|b| - 1];
      }
      JoinedAppend(a, b');
    }
  }

  /** A range is in the answer exactly when some collector returned it;
      nothing a raising collector did reaches the answer. */
  lemma {:induction false} JoinedMembers(results: seq<Collected<seq<FoldingRange>>>, f: FoldingRange)
    ensures f in Joined(results) <==>
      exists i :: 0 <= i < |results| && results[i].Returned? && results[i].value.Some? && f in results[i].value.value
  {
    if results != [] {
      var n := |results| - 1;
      JoinedMembers(results[..n], f);
      assert forall i :: 0 <= i < n ==> results[..n][i] == results[i];
    }
  }

  /** `_text_document_folding_range`: the joined answers, `None` when there
      are none. */
  method TextDocumentFoldingRange(documentKnown: bool, results: seq<Collected<seq<FoldingRange>>>)
    returns (r: Result<Option<seq<FoldingRange>>, string>)
    ensures !documentKnown ==> r == Failure(KeyError)
    ensures documentKnown ==> r.Success?
    ensures r.Success? ==> (r.value.None? <==> Joined(results) == [])
    ensures r.Success? && r.value.Some? ==> r.value.value == Joined(results)
  {
    if !documentKnown {
      return Failure(KeyError);
    }
    var ranges := [];
    var i := 0;
    while i < |results|
      invariant i <= |results|
      invariant ranges == Joined(results[..i])
    {
      assert results[..i + 1][..i] == results[..i];
      var result := results[i];
      if result.Returned? && result.value.Some? {
        ranges := ranges + result.value.value;
      }
      i := i + 1;
    }
    assert results[..i] == results;
    if |ranges| == 0 {
      return Success(None);
    }
    return Success(Some(ranges));
  }

  /** `extend_capabilities`: the provider is announced when some collector
      is registered. */
  method ExtendCapabilities(collectors: nat, capabilities: ServerCapabilities)
    modifies capabilities
    ensures capabilities.foldingRangeProvider == if collectors > 0 then Some(true) else old(capabilities.foldingRangeProvider)
    ensures capabilities.documentSymbolProvider == old(capabilities.documentSymbolProvider)
    ensures capabilities.signatureHelpProvider == old(capabilities.signatureHelpProvider)
  {
    if collectors > 0 {
      capabilities.foldingRangeProvider := Some(true);
    }
  }
}
