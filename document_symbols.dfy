/** The document-symbol part of the language server
    (`language_server/common/parts/document_symbols.py`): merging what the
    collectors answer for `textDocument/documentSymbol`, and announcing the
    provider. Logging of skipped answers is not modelled. */
module DocumentSymbols {
  import opened Wrappers
  import opened LspTypes

  predicate AllDocumentSymbols(symbols: seq<Symbol>) {
    forall i :: 0 <= i < |symbols| ==> symbols[i].DocumentSymbol?
  }

  predicate AllSymbolInformation(symbols: seq<Symbol>) {
    forall i :: 0 <= i < |symbols| ==> symbols[i].SymbolInformation?
  }

  /** The answers made only of document symbols, in collector order; an
      empty answer counts as one. */
  function DocumentSymbolsOf(results: seq<Collected<seq<Symbol>>>): seq<Symbol> {
    if results == [] then []
    else DocumentSymbolsOf(results[..|results| - 1]) + DocumentSymbolsIn(results[|results| - 1])
  }

  function DocumentSymbolsIn(c: Collected<seq<Symbol>>): seq<Symbol> {
    if c.Returned? && c.value.Some? && AllDocumentSymbols(c.value.value) then c.value.value else []
  }

  /** The non-empty answers made only of symbol informations, in order. */
  function SymbolInformationsOf(results: seq<Collected<seq<Symbol>>>): seq<Symbol> {
    if results == [] then []
    else SymbolInformationsOf(results[..|results| - 1]) + SymbolInformationsIn(results[|results| - 1])
  }

  function SymbolInformationsIn(c: Collected<seq<Symbol>>): seq<Symbol> {
    if c.Returned? && c.value.Some? && !AllDocumentSymbols(c.value.value) && AllSymbolInformation(c.value.value)
    then c.value.value else []
  }

  /** Document symbols win over symbol informations; nothing gives `None`. */
  function Answer(documentSymbols: seq<Symbol>, symbolInformations: seq<Symbol>): Option<seq<Symbol>> {
    if documentSymbols != [] then Some(documentSymbols)
    else if symbolInformations != [] then Some(symbolInformations)
    else None
  }

  lemma {:induction false} DocumentSymbolsOfAreDocumentSymbols(results: seq<Collected<seq<Symbol>>>)
    ensures AllDocumentSymbols(DocumentSymbolsOf(results))
  {
    if results != [] {
      DocumentSymbolsOfAreDocumentSymbols(results[..|results| - 1]);
    }
  }

  lemma {:induction false} SymbolInformationsOfAreSymbolInformation(results: seq<Collected<seq<Symbol>>>)
    ensures AllSymbolInformation(SymbolInformationsOf(results))
  {
    if results != [] {
      SymbolInformationsOfAreSymbolInformation(results[..|results| - 1]);
    }
  }

  /** Answers are merged in collector order. */
  lemma {:induction false} DocumentSymbolsAppend(a: seq<Collected<seq<Symbol>>>, b: seq<Collected<seq<Symbol>>>)
    ensures DocumentSymbolsOf(a + b) == DocumentSymbolsOf(a) + DocumentSymbolsOf(b)
    decreases |b|
  {
    if b == [] {
      assert a + b == a;
    } else {
      var b' := b[..|b| - 1];
      assert DocumentSymbolsOf(a + b) == DocumentSymbolsOf(a + b') + DocumentSymbolsIn(b[|b| - 1]) by {
        assert (a + b)[..|a + b| - 1] == a + b';
        assert (a + b)[|a + b| - 1] == b[|b| - 1];
      }
      DocumentSymbolsAppend(a, b');
    }
  }

  lemma {:induction false} SymbolInformationsAppend(a: seq<Collected<seq<Symbol>>>, b: seq<Collected<seq<Symbol>>>)
    ensures SymbolInformationsOf(a + b) == SymbolInformationsOf(a) + SymbolInformationsOf(b)
    decreases |b|
  {
    if b == [] {
      assert a + b == a;
    } else {
      var b' := b[..|b| - 1];
      assert SymbolInformationsOf(a + b) == SymbolInformationsOf(a + b') + SymbolInformationsIn(b[|b| - 1]) by {
        assert (a + b)[..|a + b| - 1] == a + b';
        assert (a + b)[|a + b| - 1] == b[|b| - 1];
      }
      SymbolInformationsAppend(a, b');
    }
  }

  /** A raised, empty-handed or mixed answer adds nothing. */
  lemma SkippedAnswer(results: seq<Collected<seq<Symbol>>>, skipped: Collected<seq<Symbol>>)
    requires skipped.Raised? || skipped.value.None?
      || (!AllDocumentSymbols(skipped.value.value) && !AllSymbolInformation(skipped.value.value))
    ensures DocumentSymbolsOf(results + [skipped]) == DocumentSymbolsOf(results)
    ensures SymbolInformationsOf(results + [skipped]) == SymbolInformationsOf(results)
  {
    assert (results + [skipped])[..|results|] == results;
  }

  /** `_text_document_symbol`: `None` for a document the server does not
      know, otherwise the merged answer, which never mixes the two shapes. */
  method TextDocumentSymbol(documentKnown: bool, results: seq<Collected<seq<Symbol>>>) returns (r: Option<seq<Symbol>>)
    ensures !documentKnown ==> r.None?
    ensures documentKnown ==> r == Answer(DocumentSymbolsOf(results), SymbolInformationsOf(results))
    ensures r.Some? ==> r.value != [] && (AllDocumentSymbols(r.value) || AllSymbolInformation(r.value))
  {
    if !documentKnown {
      return None;
    }
    var documentSymbols := [];
    var symbolInformations := [];
    var i := 0;
    while i < |results|
      invariant i <= |results|
      invariant documentSymbols == DocumentSymbolsOf(results[..i])
      invariant symbolInformations == SymbolInformationsOf(results[..i])
    {
      assert results[..i + 1][..i] == results[..i];
      var result := results[i];
      if result.Returned? && result.value.Some? {
        var symbols := result.value.value;
        if AllDocumentSymbols(symbols) {
          documentSymbols := documentSymbols + symbols;
        } else if AllSymbolInformation(symbols) {
          symbolInformations := symbolInformations + symbols;
        }
      }
      i := i + 1;
    }
    assert results[..i] == results;
    DocumentSymbolsOfAreDocumentSymbols(results);
    SymbolInformationsOfAreSymbolInformation(results);
    if documentSymbols != [] && symbolInformations != [] {
      return Some(documentSymbols);
    }
    if documentSymbols != [] {
      return Some(documentSymbols);
    }
    if symbolInformations != [] {
      return Some(symbolInformations);
    }
    return None;
  }

  /** The client's document-symbol capability, when the client sends one. */
  datatype DocumentSymbolCapability = DocumentSymbolCapability(
    labelSupport: Option<bool>, hierarchicalSupport: Option<bool>, symbolKind: Option<seq<int>>, tagSupport: Option<seq<int>>)

  /** The provider announced: options when the client supports labels,
      carrying the server's label when it has a non-empty one. */
  function ProviderFor(labelSupport: Option<bool>, serverLabel: Option<string>): (p: DocumentSymbolProvider)
    ensures p.ProviderEnabled? <==> labelSupport != Some(true)
    ensures p.DocumentSymbolOptions? ==> (p.labelText.Some? <==> serverLabel.Some? && serverLabel.value != "")
    ensures p.DocumentSymbolOptions? && p.labelText.Some? ==> p.labelText == serverLabel
  {
    if labelSupport == Some(true) then
      if serverLabel.Some? && serverLabel.value != "" then DocumentSymbolOptions(serverLabel) else DocumentSymbolOptions(None)
    else ProviderEnabled
  }

  class DocumentSymbolsPart {
    var hierarchicalSupport: bool
    var symbolKind: Option<seq<int>>
    var tagSupport: Option<seq<int>>
    /** `len(self.collect)`: the registered collectors. */
    var collectors: nat

    constructor (collectors: nat)
      ensures !hierarchicalSupport && symbolKind.None? && tagSupport.None? && this.collectors == collectors
    {
      hierarchicalSupport := false;
      symbolKind := None;
      tagSupport := None;
      this.collectors := collectors;
    }

    /** `extend_capabilities`: records the client's capability and announces
        the provider when the client has the capability and some collector
        is registered; `serverLabel` is the server's symbol label, if any. */
    method ExtendCapabilities(client: Option<DocumentSymbolCapability>, serverLabel: Option<string>, capabilities: ServerCapabilities)
      modifies this, capabilities
      ensures client.None? ==> (hierarchicalSupport == old(hierarchicalSupport)
        && symbolKind == old(symbolKind) && tagSupport == old(tagSupport))
      ensures client.Some? ==> (hierarchicalSupport == (client.value.hierarchicalSupport == Some(true))
        && symbolKind == client.value.symbolKind && tagSupport == client.value.tagSupport)
      ensures collectors == old(collectors)
      ensures capabilities.documentSymbolProvider ==
        if client.Some? && collectors > 0 then Some(ProviderFor(client.value.labelSupport, serverLabel))
        else old(capabilities.documentSymbolProvider)
      ensures capabilities.foldingRangeProvider == old(capabilities.foldingRangeProvider)
      ensures capabilities.signatureHelpProvider == old(capabilities.signatureHelpProvider)
    {
      if client.Some? {
        var documentSymbol := client.value;
        var labelSupport := documentSymbol.labelSupport == Some(true);
        hierarchicalSupport := documentSymbol.hierarchicalSupport == Some(true);
        symbolKind := documentSymbol.symbolKind;
        tagSupport := documentSymbol.tagSupport;
        if collectors > 0 {
          if labelSupport {
            var symbolLabel := serverLabel;
            capabilities.documentSymbolProvider :=
              Some(if symbolLabel.Some? && symbolLabel.value != "" then DocumentSymbolOptions(symbolLabel) else DocumentSymbolOptions(None));
          } else {
            capabilities.documentSymbolProvider := Some(ProviderEnabled);
          }
        }
      }
    }
  }
}
