/** The Language Server Protocol values the language-server parts exchange,
    the server capabilities they fill in, and what one collector of a
    collect event gives back. */
module LspTypes {
  import opened Wrappers

  datatype SignatureInformation = SignatureInformation(labelText: string, parameters: seq<string>, activeParameter: int)

  datatype SignatureHelp = SignatureHelp(signatures: seq<SignatureInformation>, activeSignature: int, activeParameter: Option<int>)

  datatype SignatureHelpOptions = SignatureHelpOptions(triggerCharacters: Option<seq<string>>, retriggerCharacters: Option<seq<string>>)

  /** A folding range; the character bounds are left out for clients that
      fold whole lines only. */
  datatype FoldingRange = FoldingRange(
    startLine: int, endLine: int, startCharacter: Option<int>, endCharacter: Option<int>, kind: Option<string>)

  /** The two symbol shapes a document-symbol collector may answer with. */
  datatype Symbol =
    | DocumentSymbol(name: string, detail: Option<string>)
    | SymbolInformation(name: string, containerName: Option<string>)

  datatype DocumentSymbolProvider =
    | ProviderEnabled
    | DocumentSymbolOptions(labelText: Option<string>)

  /** What one collector of a collect event gave back: it raised (a
      cancellation or another exception) or it returned a value or `None`. */
  datatype Collected<T> =
    | Raised(cancelled: bool)
    | Returned(value: Option<T>)

  /** The server capabilities the parts announce. */
  class ServerCapabilities {
    var documentSymbolProvider: Option<DocumentSymbolProvider>
    var foldingRangeProvider: Option<bool>
    var signatureHelpProvider: Option<SignatureHelpOptions>

    constructor ()
      ensures documentSymbolProvider.None? && foldingRangeProvider.None? && signatureHelpProvider.None?
    {
      documentSymbolProvider := None;
      foldingRangeProvider := None;
      signatureHelpProvider := None;
    }
  }
}
