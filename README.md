# RobotCode debugger and language-server core, modelled in Dafny

RobotCode is the Robot Framework language server and debug adapter. This
project models its core in Dafny and proves properties of that model.

The debugger core:

- The debug session (`Debugger.Debugger`) is a class whose fields the
  client commands and the Robot Framework lifecycle callbacks update:
  the run state, the requested stepping, the stop depth, the breakpoint
  and exception-breakpoint tables, the hit counts and the stack of frames.
  Its `send_event` calls are recorded in an `events` log.
- Two protocol engines sit under it:
  - the JSON-RPC 2.0 engine (`JsonRpc`), with its byte framing
    (`Framing`), pending-request and running-request tables, method
    registry and parameter binding (`Binding`);
  - the Debug Adapter Protocol engine (`Dap`), with the same structure,
    keyed by the caller's `seq`.
- Around them:
  - the Robot Framework listeners that feed the session (`Listeners`);
  - the launcher's command line, environment and console choice
    (`Launcher`).

The language-server helpers:

- token and range helpers (`AstUtils`);
- the Robot Framework version parser (`RobotVersion`);
- workspace folders, settings lookup, file-creation merging and file
  watchers (`Workspace`);
- the signature-help argument index (`RobotSignatureHelp`);
- the merging of collector answers:
  - document symbols (`DocumentSymbols`);
  - folding ranges (`FoldingMerge`);
  - signature help (`SignatureMerge`);
- the folding-range visitor (`RobotFoldingRange`).

Shared pieces:

- `Wrappers` holds Option and Result.
- `Text` holds string helpers.
- `JsonValue` holds JSON values.
- `Batch` decodes a message body that may be a batch.
- `LspTypes` holds the protocol values the language-server parts
  exchange.

How the source becomes Dafny:

- Code that mutates state is modelled as classes with `modifies` clauses.
  Its methods are proved against specification functions. Examples:
  - `ScanPoints` specifies the breakpoint loop;
  - `Feed` specifies `data_received`;
  - `RunArgs` specifies `_launch`'s command line;
  - `Ranges` specifies the folding visitor.
- Pure code is modelled as functions and lemmas.

These outside services become function-valued parameters:

- path resolution;
- breakpoint condition evaluation;
- `int()` of a hit condition;
- variable substitution;
- `Position.is_in_range`;
- `Path.is_relative_to`;
- JSON-to-object conversion.

The Python regular expressions are written out as explicit greedy
scanners. There are two of them: the message-header pattern and the
version pattern.

Where the documented behaviour and the code differ, the model follows the
code:

- Hit counts. The documentation says a breakpoint with a hit condition of
  N fires only on the N-th hit. The code compares with `!=`
  (`robotcode/debugger/debugger.py:422`), so it fires on every hit except
  the N-th. `Debugger.HitConditionSkipsNthHit` proves this.
- False conditions. The documentation treats a false condition as "this
  breakpoint does not fire". The code returns from `process_start_state`
  at once, so later breakpoints on the same line are not looked at.
- Stack trace length. `get_stack_trace` returns up to `levels + 1`
  frames, not `levels`.

## Model

| member | source | states |
|---|---|---|
| AstUtils.RangeFromToken | robotcode/language_server/robotframework/utils/ast.py:106-113 | the range is on the token's zero-based line, starts at its column and spans exactly the length of its text |
| AstUtils.RangeFromNode | robotcode/language_server/robotframework/utils/ast.py:34-41 | the range starts at the node's zero-based line and column; an unknown end line or end column becomes -1 |
| AstUtils.RangeFromTokenOrNode | robotcode/language_server/robotframework/utils/ast.py:126-131 | the token's range when there is a token, else the node's, else the zero range |
| AstUtils.TokenInRange | robotcode/language_server/robotframework/utils/ast.py:116-118 | true exactly when the token's start or its end position lies in the range |
| AstUtils.TokensAtPosition | robotcode/language_server/robotframework/utils/ast.py:173-174 | keeps exactly the tokens whose range holds the position or ends at it, never adds one, and keeps all when all qualify |
| AstUtils.TokensAtPositionAppend | robotcode/language_server/robotframework/utils/ast.py:173-174 | the filter keeps order: filtering a concatenation concatenates the filtered parts |
| AstUtils.LeadingBlanks | robotcode/language_server/robotframework/utils/ast.py:160-170 | the result is a prefix made only of spaces and tabs that cannot be extended |
| AstUtils.LeadingBlanksUnique | robotcode/language_server/robotframework/utils/ast.py:160-170 | any blank prefix that cannot be extended is the leading blanks |
| AstUtils.WidthIsSpacesPlusTwiceTabs | robotcode/language_server/robotframework/utils/ast.py:146-157 | the width of a run of blanks is its spaces plus twice its tabs |
| AstUtils.WhitespaceAtBeginOfToken | robotcode/language_server/robotframework/utils/ast.py:146-157 | the loop returns the width of the token's leading blanks: a space counts 1, a tab 2, the first other character stops it |
| AstUtils.WhitespaceFromBeginOfToken | robotcode/language_server/robotframework/utils/ast.py:160-170 | the loop returns exactly the token's leading run of spaces and tabs |
| AstUtils.TokenizeVariables | robotcode/language_server/robotframework/utils/ast.py:211-224 | the pieces are exactly Split of the matches: for each match its non-empty leading text in the token's type, then the variable at the column where it starts, then any remaining text; all on the token's line, contiguous from its column, spelling the matched text |
| AstUtils.EmitMatch | robotcode/language_server/robotframework/utils/ast.py:217-222 | one turn of the loop emits the non-empty text before the variable, then the variable, and keeps the pieces contiguous |
| AstUtils.SplitVariables | robotcode/language_server/robotframework/utils/ast.py:217-224 | unless the token is itself a variable, the variable pieces of the split are exactly the matches' variables, in order |
| AstUtils.SplitMatchesVariables | robotcode/language_server/robotframework/utils/ast.py:217-222 | the same for the pieces the matches yield, before any remaining text |
| AstUtils.VariablesOfAppend | robotcode/language_server/robotframework/utils/ast.py:217-224 | the variable pieces of concatenated pieces are those of each part, in order |
| RobotVersion.DigitPrefix | robotcode/language_server/robotframework/utils/version.py:22-31 | the greedy digit run: the longest prefix made only of digits |
| RobotVersion.Tagged | robotcode/language_server/robotframework/utils/version.py:22-31 | a group `tag` followed by digits matches exactly when the text starts with the tag and a digit, and consumes something |
| RobotVersion.Optional | robotcode/language_server/robotframework/utils/version.py:25-27 | an optional group has a number exactly when the text starts it, and never lengthens the text |
| RobotVersion.PreRelease | robotcode/language_server/robotframework/utils/version.py:26 | the pre-release identifier and number are both present or both absent, and the identifier is a, b or rc |
| RobotVersion.Match | robotcode/language_server/robotframework/utils/version.py:22-31 | the text left for `rest` is a suffix of the input; MatchRender gives the exact match |
| RobotVersion.Parse | robotcode/language_server/robotframework/utils/version.py:33-45 | a success is a well-formed version; every failure is InvalidRobotVersionError |
| RobotVersion.MatchRender | robotcode/language_server/robotframework/utils/version.py:22-31 | a rendered version followed by text that cannot extend its last group matches as that version, leaving the text for `rest` |
| RobotVersion.ParseRender | robotcode/language_server/robotframework/utils/version.py:33-41 | parsing the text of a well-formed version gives that version back, absent parts as None |
| RobotVersion.TrailingCharRejected | robotcode/language_server/robotframework/utils/version.py:28-45 | a trailing character that is neither a digit nor a line break is caught by `rest` and rejects the string |
| RobotVersion.LineBreakEndsVersion | robotcode/language_server/robotframework/utils/version.py:28-41 | a line break ends the version, since `.` does not match it; whatever follows is ignored |
| RobotVersion.MinorRequired | robotcode/language_server/robotframework/utils/version.py:23-24 | a number not followed by "." and a digit is rejected, also when a "." without a digit follows: the minor part is mandatory |
| RobotVersion.AbsentGroupsNotStarted | robotcode/language_server/robotframework/utils/version.py:25-27 | after rendering, the text following an absent optional group does not start that group |
| Workspace.WorkspaceFolder.constructor | robotcode/language_server/common/parts/workspace.py:101-106 | a folder keeps its name and uri, and its document uri is the uri |
| Workspace.UrisOf | robotcode/language_server/common/parts/workspace.py:338-343 | the uris of the announced folders, in order |
| Workspace.Matching | robotcode/language_server/common/parts/workspace.py:338-343 | exactly the folders with the given uri |
| Workspace.RemoveFirst | robotcode/language_server/common/parts/workspace.py:345-346 | `list.remove` drops one occurrence of the folder and nothing else |
| Workspace.Kept | robotcode/language_server/common/parts/workspace.py:337-349 | exactly the folders whose uri is not announced, in order |
| Workspace.KeptAppend | robotcode/language_server/common/parts/workspace.py:337-349 | the kept folders keep their relative order |
| Workspace.KeptDropsAnnounced | robotcode/language_server/common/parts/workspace.py:342-349 | no kept folder has a removed or added uri, so an added folder replaces its old entry rather than duplicating it |
| Workspace.Workspace.constructor | robotcode/language_server/common/parts/workspace.py:145 | the folders are the client's initial folders in order; the settings are empty |
| Workspace.Workspace.AppendFolders | robotcode/language_server/common/parts/workspace.py:348-349 | a new folder is appended for each added one, in order, after the existing folders |
| Workspace.Workspace.ChangeWorkspaceFoldersAsWritten | robotcode/language_server/common/parts/workspace.py:333-349 | the folders of each removed uri, then of each added uri, are removed one by one; the first that is missing raises ValueError and stops the update, otherwise the added folders follow |
| Workspace.Workspace.CollectToRemove | robotcode/language_server/common/parts/workspace.py:338-343 | the loop collects the folders of each uri in turn |
| Workspace.Workspace.RemoveFolders | robotcode/language_server/common/parts/workspace.py:345-346 | the loop removes each collected folder and stops at the first that is gone |
| Workspace.RemoveEachStops | robotcode/language_server/common/parts/workspace.py:345-346 | once a removal fails, the later ones change nothing |
| Workspace.RemoveEachCounts | robotcode/language_server/common/parts/workspace.py:345-346 | a removal run that succeeds takes out exactly the collected folders, as a multiset |
| Workspace.ToRemoveTwice | robotcode/language_server/common/parts/workspace.py:338-343 | a uri named twice collects its folder twice |
| Workspace.ReannouncedFolderRaises | robotcode/language_server/common/parts/workspace.py:337-349 | as written, a folder whose uri is both removed and added in one event is collected twice, and the second removal fails |
| Workspace.Workspace.ChangeWorkspaceFolders | robotcode/language_server/common/parts/workspace.py:337-349 | corrected: every folder with a removed or added uri is dropped, the others keep their order, and the added folders follow in order |
| Workspace.Workspace.GetWorkspaceFolder | robotcode/language_server/common/parts/workspace.py:316-329 | None exactly when no folder contains the uri; otherwise a containing folder whose uri is at least as long as every other containing folder's, and strictly longer than those of the containing folders listed before it (the stable sort's tie-break) |
| Workspace.Longest | robotcode/language_server/common/parts/workspace.py:316-329 | the first of the containing folders with the longest uri, since the sort is stable |
| Workspace.Workspace.GetConfiguration | robotcode/language_server/common/parts/workspace.py:307-314 | the settings walked along the dot-separated section |
| Workspace.LookupAppend | robotcode/language_server/common/parts/workspace.py:307-314 | walking two key paths one after the other is walking their concatenation; a missing key gives `{}` and stays there |
| Workspace.LookupNest | robotcode/language_server/common/parts/workspace.py:307-314 | walking the keys a value was nested under gives the value back |
| Workspace.WillCreateFiles | robotcode/language_server/common/parts/workspace.py:226-240 | None exactly when no handler answered; otherwise the mapping results merged in order |
| Workspace.MergedTakesLast | robotcode/language_server/common/parts/workspace.py:229-240 | a key is in the merge exactly when some mapping result has it, and takes its value from the last such result |
| Workspace.Normalise | robotcode/language_server/common/parts/workspace.py:374-377 | a watcher stays as it is, a pattern gets no kind, and a pair gives pattern and kind |
| Workspace.NormaliseAll | robotcode/language_server/common/parts/workspace.py:374-377 | each entry is normalised in place, in order |
| Workspace.NormaliseIdempotent | robotcode/language_server/common/parts/workspace.py:374-377 | normalising normalised watchers changes nothing |
| RobotSignatureHelp.ArgumentsAppend | robotcode/language_server/robotframework/parts/signature_help.py:119-134 | the argument tokens of a concatenation are those of each part, in order |
| RobotSignatureHelp.ArgumentsSplitAt | robotcode/language_server/robotframework/parts/signature_help.py:119-134 | an argument token splits the argument list around itself |
| RobotSignatureHelp.LastAtPositionSpec | robotcode/language_server/robotframework/parts/signature_help.py:109-114 | the token found is at the position and no later token is |
| RobotSignatureHelp.LastAtPositionIsLastFiltered | robotcode/language_server/robotframework/parts/signature_help.py:109-114 | the token found is the last one `get_tokens_at_position` keeps, and there is none exactly when that list is empty |
| RobotSignatureHelp.NearestArgument | robotcode/language_server/robotframework/parts/signature_help.py:119-134 | the argument token nearest at or before the index, with none between it and the index; none exactly when no argument precedes |
| RobotSignatureHelp.FindArgumentToken | robotcode/language_server/robotframework/parts/signature_help.py:119-126 | the backward loop finds the nearest argument token, or -1 |
| RobotSignatureHelp.ShiftedRange | robotcode/language_server/robotframework/parts/signature_help.py:136-143 | the shifted range ends where the token ends |
| RobotSignatureHelp.ComputeArgumentIndex | robotcode/language_server/robotframework/parts/signature_help.py:109-146 | the loop and the shift compute the specified argument index |
| RobotSignatureHelp.ArgumentIndexBounds | robotcode/language_server/robotframework/parts/signature_help.py:119-146 | an index is never negative and at most the number of arguments |
| RobotSignatureHelp.ArgumentIndexNamesNearest | robotcode/language_server/robotframework/parts/signature_help.py:119-134 | without the blank shift, the index is the place, among the arguments, of the nearest argument token at or before the cursor |
| RobotSignatureHelp.NoArgumentNoAnswer | robotcode/language_server/robotframework/parts/signature_help.py:145-146 | with no argument token at or before the cursor and no shift, there is no answer |
| RobotSignatureHelp.ActiveParameter | robotcode/language_server/robotframework/parts/signature_help.py:170-187 | the index itself when in range; past the end, the last parameter if it starts with `*`, otherwise -1 |
| RobotSignatureHelp.FirstOfKind | robotcode/language_server/robotframework/parts/signature_help.py:150-152 | the first token of the kind, or none exactly when there is no such token |
| RobotSignatureHelp.KeywordCallSignatureHelp | robotcode/language_server/robotframework/parts/signature_help.py:92-188 | an answer exactly when the namespace is loaded, an index exists and the keyword is found; it is one signature with the active parameter |
| RobotSignatureHelp.InitSignatures | robotcode/language_server/robotframework/parts/signature_help.py:290-300 | one signature per library init |
| RobotSignatureHelp.InitSignaturesShape | robotcode/language_server/robotframework/parts/signature_help.py:290-300 | each init contributes its own signature text and parameters, in order |
| RobotSignatureHelp.InitSignaturesAppend | robotcode/language_server/robotframework/parts/signature_help.py:290-300 | the index is carried from one init to the next |
| RobotSignatureHelp.MinusOneStays | robotcode/language_server/robotframework/parts/signature_help.py:290-300 | a reset index gives no active parameter for any init |
| RobotSignatureHelp.ResetPersists | robotcode/language_server/robotframework/parts/signature_help.py:290-300 | once an init resets the index, no later init has an active parameter |
| RobotSignatureHelp.WithNameToken | robotcode/language_server/robotframework/parts/signature_help.py:224-226 | the first `WITH NAME` token, or none exactly when there is none |
| RobotSignatureHelp.LibraryImportSignatureHelp | robotcode/language_server/robotframework/parts/signature_help.py:204-308 | an answer exactly when the cursor is past the name and before `WITH NAME`, the library has inits and an index exists; the answer holds one signature per init |
| RobotSignatureHelp.BuildInitSignatures | robotcode/language_server/robotframework/parts/signature_help.py:290-300 | the loop over the inits builds the specified signatures |
| RobotSignatureHelp.FindMethod | robotcode/language_server/robotframework/parts/signature_help.py:58-70 | a handler is found exactly when the class or a base has one; the class's own handler comes first |
| RobotSignatureHelp.FindInBases | robotcode/language_server/robotframework/parts/signature_help.py:66-69 | the first base, in declaration order, whose search finds a handler |
| DocumentSymbols.TextDocumentSymbol | robotcode/language_server/common/parts/document_symbols.py:87-130 | None for an unknown document; otherwise document symbols win over symbol informations, nothing gives None, and the shapes are never mixed |
| DocumentSymbols.DocumentSymbolsOfAreDocumentSymbols | robotcode/language_server/common/parts/document_symbols.py:109-116 | the collected document symbols are all document symbols |
| DocumentSymbols.SymbolInformationsOfAreSymbolInformation | robotcode/language_server/common/parts/document_symbols.py:109-116 | the collected symbol informations are all symbol informations |
| DocumentSymbols.DocumentSymbolsAppend | robotcode/language_server/common/parts/document_symbols.py:103-116 | document-symbol answers are merged in collector order |
| DocumentSymbols.SymbolInformationsAppend | robotcode/language_server/common/parts/document_symbols.py:103-116 | symbol-information answers are merged in collector order |
| DocumentSymbols.SkippedAnswer | robotcode/language_server/common/parts/document_symbols.py:104-116 | a raised, empty-handed or mixed answer adds nothing |
| DocumentSymbols.ProviderFor | robotcode/language_server/common/parts/document_symbols.py:74-85 | options exactly when the client supports labels, carrying the server's label exactly when it is non-empty |
| DocumentSymbols.DocumentSymbolsPart.ExtendCapabilities | robotcode/language_server/common/parts/document_symbols.py:59-85 | records the client's capability; the provider is set only when the client has the capability and a collector exists |
| FoldingMerge.JoinedAppend | robotcode/language_server/common/parts/folding_range.py:47-57 | answers are joined in collector order |
| FoldingMerge.JoinedMembers | robotcode/language_server/common/parts/folding_range.py:47-57 | a range is in the answer exactly when some collector returned it |
| FoldingMerge.TextDocumentFoldingRange | robotcode/language_server/common/parts/folding_range.py:40-61 | KeyError for an unknown document; otherwise the joined answers, None exactly when empty |
| FoldingMerge.ExtendCapabilities | robotcode/language_server/common/parts/folding_range.py:36-38 | the provider is announced exactly when some collector is registered |
| SignatureMerge.LastAnswerNone | robotcode/language_server/common/parts/signature_help.py:90-97 | there is a last answer exactly when some collector answered |
| SignatureMerge.LastAnswerWins | robotcode/language_server/common/parts/signature_help.py:90-102 | an answer followed only by raised or empty answers is the one used, whatever came before |
| SignatureMerge.TextDocumentSignatureHelp | robotcode/language_server/common/parts/signature_help.py:71-102 | KeyError for an unknown document; otherwise the last answer exactly when it offers a signature, else None |
| SignatureMerge.TriggersMembers | robotcode/language_server/common/parts/signature_help.py:43-69 | a character triggers or retriggers exactly when some collector declares it |
| SignatureMerge.TriggersAppend | robotcode/language_server/common/parts/signature_help.py:43-69 | the characters are chained in collector order |
| SignatureMerge.NoneIfEmpty | robotcode/language_server/common/parts/signature_help.py:66-69 | an empty list becomes None, any other is kept |
| SignatureMerge.ExtendCapabilities | robotcode/language_server/common/parts/signature_help.py:42-69 | with some collector registered, the provider carries the chained characters; nothing else changes |
| RobotFoldingRange.KindName | robotcode/language_server/robotframework/parts/folding_range.py:78-111 | each visited class has its folding kind, and only the other classes have none |
| RobotFoldingRange.RangeFor | robotcode/language_server/robotframework/parts/folding_range.py:58-76 | zero-based start and end lines, with the start line for an unknown end; columns only when the client folds within lines |
| RobotFoldingRange.RangesShape | robotcode/language_server/robotframework/parts/folding_range.py:58-111 | every range has a folding kind, and has columns exactly when the client folds within lines |
| RobotFoldingRange.ChildRangesShape | robotcode/language_server/robotframework/parts/folding_range.py:58-111 | the same for the ranges of a list of siblings |
| RobotFoldingRange.RangesOrdered | robotcode/language_server/robotframework/parts/folding_range.py:58-76 | in a well-formed tree no range ends before it starts |
| RobotFoldingRange.ChildRangesOrdered | robotcode/language_server/robotframework/parts/folding_range.py:58-76 | the same for the ranges of a list of siblings |
| RobotFoldingRange.ChildRangesAppend | robotcode/language_server/robotframework/parts/folding_range.py:78-111 | siblings are visited in order |
| RobotFoldingRange.Visitor.constructor | robotcode/language_server/robotframework/parts/folding_range.py:31-46 | folds whole lines only unless the client's capability says otherwise; no ranges yet |
| RobotFoldingRange.Visitor.Append | robotcode/language_server/robotframework/parts/folding_range.py:58-76 | appends exactly the node's range |
| RobotFoldingRange.Visitor.Visit | robotcode/language_server/robotframework/parts/folding_range.py:78-111 | appends the subtree's ranges: a node's own before its contents; an unnamed test case or keyword adds nothing |
| RobotFoldingRange.Visitor.Fold | robotcode/language_server/robotframework/parts/folding_range.py:78-111 | a folding rule appends the node's range, then the ranges of its contents |
| RobotFoldingRange.Visitor.GenericVisit | robotcode/language_server/robotframework/parts/folding_range.py:78-111 | the loop over the children appends their ranges in order |
| RobotFoldingRange.FindFrom | robotcode/language_server/robotframework/parts/folding_range.py:48-56 | the model's ranges, None exactly when there are none |
| Framing.ContentTypeLineCharset | robotcode/jsonrpc2/protocol.py:358-365 | a header line naming a content type and a charset captures that charset |
| Framing.ContentLengthLineValue | robotcode/jsonrpc2/protocol.py:358-365 | a `Content-Length` line with a number reads back as that number |
| Framing.MessageReader.DataReceived | robotcode/jsonrpc2/protocol.py:367-392 | the buffer and the bodies handed on are those of the specified reader `Feed` |
| Framing.FeedWaits | robotcode/jsonrpc2/protocol.py:367-380 | while the body is incomplete, everything is buffered and nothing is handed on |
| Framing.FeedHandsOn | robotcode/jsonrpc2/protocol.py:367-392 | a body that ends with the buffer is handed on with its charset, and the buffer is emptied |
| Framing.MatchFramePrefix | robotcode/jsonrpc2/protocol.py:358-365 | on any prefix of a sent frame the pattern finds nothing until the empty line has arrived, and from then on the sender's header |
| Framing.FeedFrame | robotcode/jsonrpc2/protocol.py:367-392 | a sent frame, in any chunks, is handed on whole, exactly once, with the charset its header names |
| Framing.TwoLineHeader | robotcode/jsonrpc2/protocol.py:498-500 | a `Content-Length` line and one other line form a header whose charset is the second line's |
| Framing.OneLineHeader | robotcode/debugger/protocol.py:91-101 | a lone `Content-Length` line forms a header that names no charset |
| Framing.JsonRpcHeaderLines | robotcode/jsonrpc2/protocol.py:498-500 | the language server writes two header lines |
| Framing.DapHeaderLines | robotcode/debugger/protocol.py:91-101 | the debug adapter writes one header line |
| Framing.JsonRpcRoundTrip | robotcode/jsonrpc2/protocol.py:492-509 | whatever the chunks of a frame the language server wrote, the reader hands on exactly its body, decoded as UTF-8, and keeps nothing buffered |
| Framing.DapRoundTrip | robotcode/debugger/protocol.py:91-101 | the same for a frame the debug adapter wrote, which takes the default charset |
| Batch.DecodeAll | robotcode/jsonrpc2/protocol.py:432-436 | every element before the first failing one yields its message, in order; the failure, if any, is that element's |
| Batch.DecodeBody | robotcode/jsonrpc2/protocol.py:432-436 | a list is decoded element by element, any other value as one message |
| Batch.WholeBatch | robotcode/jsonrpc2/protocol.py:432-436 | a batch of valid messages yields all of them, in order, with no failure |
| Batch.BatchStops | robotcode/jsonrpc2/protocol.py:432-436 | a batch stops at its first invalid element, after the messages before it |
| JsonRpc.NotAnObject | robotcode/jsonrpc2/protocol.py:414-418 | a value that is not an object is a TypeError or not a JSON-RPC message; numbers, booleans and null are TypeError |
| JsonRpc.DecodeOne | robotcode/jsonrpc2/protocol.py:414-430 | a missing `jsonrpc` member and a wrong version each fail with their own error; a decoded message was version 2.0 |
| JsonRpc.BatchWithBadVersion | robotcode/jsonrpc2/protocol.py:411-436 | a batch element of another version stops the batch with InvalidProtocolVersionError after the messages before it |
| JsonRpc.RpcRegistry.constructor | robotcode/jsonrpc2/protocol.py:271-276 | the table holds exactly the decorated methods, each under its own name |
| JsonRpc.RpcRegistry.AddMethod | robotcode/jsonrpc2/protocol.py:287-290 | the entry is stored under its name, replacing any entry of that name |
| JsonRpc.RpcRegistry.RemoveMethod | robotcode/jsonrpc2/protocol.py:292-294 | the name's entry is removed and returned, None for an unknown name |
| JsonRpc.RpcRegistry.GetEntry | robotcode/jsonrpc2/protocol.py:296-298 | the name's entry, None exactly for an unknown name |
| JsonRpc.JsonRpcProtocol.constructor | robotcode/jsonrpc2/protocol.py:402-409 | the tables and the counter start empty |
| JsonRpc.JsonRpcProtocol.SendMessage | robotcode/jsonrpc2/protocol.py:492-509 | the message is written and no table changes |
| JsonRpc.JsonRpcProtocol.SendError | robotcode/jsonrpc2/protocol.py:473-490 | an error reply with the given code, message, id and data is written |
| JsonRpc.JsonRpcProtocol.SendRequest | robotcode/jsonrpc2/protocol.py:511-528 | the counter goes up by one and is the new id, which no pending request has; the entry is stored, then the request is written |
| JsonRpc.JsonRpcProtocol.SendNotification | robotcode/jsonrpc2/protocol.py:538-539 | a notification is written and no table changes |
| JsonRpc.JsonRpcProtocol.HandleResponse | robotcode/jsonrpc2/protocol.py:542-565 | a null or unknown id is answered with INTERNAL_ERROR and changes no table; otherwise the entry is removed and a waiting future completed |
| JsonRpc.JsonRpcProtocol.HandleErrorAsWritten | robotcode/jsonrpc2/protocol.py:568-569 | as written: the peer's error is raised and no table changes |
| JsonRpc.JsonRpcProtocol.HandleError | robotcode/jsonrpc2/protocol.py:568-569 | corrected: the pending entry is removed and its waiting future fails with the peer's error; an error for no pending request is raised |
| JsonRpc.ErrorReplyLeavesRequestWaiting | robotcode/jsonrpc2/protocol.py:568-569 | as written, an error reply leaves its request pending and its future waiting |
| JsonRpc.ErrorReplyRejectsRequest | robotcode/jsonrpc2/protocol.py:568-569 | corrected, the same reply fails the future and clears the request |
| JsonRpc.JsonRpcProtocol.BeginRequest | robotcode/jsonrpc2/protocol.py:627-649 | an unknown or non-callable method gets METHOD_NOT_FOUND under the request's id; a failing conversion gets INTERNAL_ERROR; otherwise the request is entered as running with the bound call |
| JsonRpc.JsonRpcProtocol.EndRequest | robotcode/jsonrpc2/protocol.py:643-661 | the request leaves the running table on every path, and its reply is written |
| JsonRpc.Reply | robotcode/jsonrpc2/protocol.py:651-661 | a result becomes a response, a JSON-RPC error keeps its own error, any other exception becomes INTERNAL_ERROR, and a cancellation has no reply |
| JsonRpc.JsonRpcProtocol.HandleNotification | robotcode/jsonrpc2/protocol.py:674-690 | a call exactly for a known callable method whose params convert, bound like a request's; an unknown method or a failing conversion gives no call; nothing is ever written |
| JsonRpc.JsonRpcProtocol.HandleBody | robotcode/jsonrpc2/protocol.py:438-445 | the decoded messages are dispatched in order; any failure is answered with PARSE_ERROR |
| JsonRpc.Completion | robotcode/jsonrpc2/protocol.py:560-565 | a completed future is no longer waiting |
| Binding.ConvertParams | robotcode/jsonrpc2/protocol.py:572-625 | the loops build the specified call (the debug adapter's copy at robotcode/debugger/protocol.py:177-229 differs only in the catch-all name) |
| Binding.BindRest | robotcode/jsonrpc2/protocol.py:616-621 | each leftover name is bound to the attribute of that name, else the member of that name |
| Binding.Untyped | robotcode/jsonrpc2/protocol.py:577-581 | without a parameter type, an object is passed member by member as keywords and any other value as the one positional argument |
| Binding.WithoutVarKeyword | robotcode/jsonrpc2/protocol.py:583-615 | without `**kwargs`, positional-only parameters are passed in order and the others by name, each from the attribute, else the converted object for the catch-all name, else the member |
| Binding.WithVarKeyword | robotcode/jsonrpc2/protocol.py:616-621 | with `**kwargs`, every attribute and member name not taken by a positional-only parameter reaches the handler, by the same precedence |
| Binding.CatchAllKeyword | robotcode/jsonrpc2/protocol.py:616-624 | with `**kwargs`, the catch-all keyword carries the converted object unless it was already bound, in which case a member of that name replaces it |
| Binding.WalkArgs | robotcode/jsonrpc2/protocol.py:597-615 | the positional arguments are the values of the positional-only parameters, in signature order |
| Binding.WalkKeywords | robotcode/jsonrpc2/protocol.py:597-615 | a name is bound by keyword exactly when a keyword parameter of that name has a value, and it is bound to that value |
| Binding.WalkUsed | robotcode/jsonrpc2/protocol.py:598-603 | the names removed from the leftovers are the attributes named by a parameter |
| Binding.WalkAdded | robotcode/jsonrpc2/protocol.py:604-610 | the converted object is bound exactly when a parameter has the catch-all name and the object has no attribute of that name |
| Dap.RpcErrorTextStart | robotcode/debugger/protocol.py:63-66 | the exception text starts with the message and a space exactly when there is a non-empty message, otherwise with `(seq=` |
| Dap.RpcErrorTextEnd | robotcode/debugger/protocol.py:63-66 | the text ends with `: ` and the error message exactly when one is given, otherwise with the quoted command and `)` |
| Dap.ErrorReply | robotcode/debugger/protocol.py:103-119 | the error response answers the given seq and command, and is a success only when success is explicitly true |
| Dap.ReplyAnswersRequest | robotcode/debugger/protocol.py:240-289 | every reply carries the request's seq, is a success for a returned result and unsuccessful for every other outcome except an adapter error that says success, and is absent only for a cancelled handler |
| Dap.AdapterErrorReply | robotcode/debugger/protocol.py:264-272 | an adapter error keeps its own command unless that is empty, and is a success only when it says so |
| Dap.UnknownCommandReply | robotcode/debugger/protocol.py:231-238 | an unknown command gets an unsuccessful "Unknown Command" error under the request's own seq and command |
| Dap.DebugAdapterProtocol.constructor | robotcode/debugger/protocol.py:82-88 | the tables start empty and nothing is written |
| Dap.DebugAdapterProtocol.SendMessage | robotcode/debugger/protocol.py:91-101 | the message is written and no table changes |
| Dap.DebugAdapterProtocol.SendRequest | robotcode/debugger/protocol.py:304-317 | the entry is stored under the caller's seq, replacing any earlier entry, then the request is written |
| Dap.DebugAdapterProtocol.HandleResponse | robotcode/debugger/protocol.py:349-369 | an unknown seq gets an "invalid response" error and changes no table; otherwise the entry is removed and a waiting future completed, and a failed response fails it |
| Dap.DebugAdapterProtocol.HandleErrorResponse | robotcode/debugger/protocol.py:335-346 | the entry is removed and its waiting future fails with the error; with no entry the error is raised |
| Dap.DebugAdapterProtocol.BeginRequest | robotcode/debugger/protocol.py:240-252 | an unknown command runs the unknown-command handler, a failing conversion is answered at once, otherwise the handler runs with the bound call; a started task is entered under the request's seq |
| Dap.DebugAdapterProtocol.EndRequest | robotcode/debugger/protocol.py:254-289 | the request leaves the running table on every path and its reply is written |
| Dap.DebugAdapterProtocol.HandleBody | robotcode/debugger/protocol.py:146-153 | decoded messages are dispatched in order; a failure is answered with an "Invalid Message" error |
| Dap.Completion | robotcode/debugger/protocol.py:359-369 | a completed future is resolved exactly when the conversion succeeded |
| Debugger.Debugger.constructor | robotcode/debugger/debugger.py:168-187 | the session starts stopped, with nothing requested, no breakpoints, no frames and no events |
| Debugger.Debugger.SetMainThread | robotcode/debugger/debugger.py:653-654 | the main thread is recorded; the breakpoints, exception breakpoints, flags, last failure message, stepping request, hit counts, frames and events are as they were |
| Debugger.Debugger.SendEvent | robotcode/debugger/debugger.py:315-316 | the event is sent and nothing else changes |
| Debugger.Debugger.Start | robotcode/debugger/debugger.py:218-222 | the session is running; settings, stepping request, hit counts, stop-on-entry flag, frames and events are as they were |
| Debugger.Debugger.Stop | robotcode/debugger/debugger.py:224-237 | the session is stopped from any state; exactly one Continued event is sent when the main thread has an ident, none otherwise; settings, stepping request, hit counts and frames are as they were |
| Debugger.Debugger.ContinueThread | robotcode/debugger/debugger.py:239-246 | a thread other than the main one gets "Invalid threadId" and nothing changes; otherwise the session runs |
| Debugger.Debugger.PauseThread | robotcode/debugger/debugger.py:248-257 | same thread check; otherwise the session is paused with a pause request |
| Debugger.Debugger.Next | robotcode/debugger/debugger.py:259-276 | same thread check; in a test or suite it steps in, otherwise it stops at the next start no deeper than now, counting a loop or branch at the top as one level deeper |
| Debugger.Debugger.StepIn | robotcode/debugger/debugger.py:278-289 | same thread check; otherwise running with a step-in request |
| Debugger.Debugger.StepOut | robotcode/debugger/debugger.py:291-313 | same thread check; otherwise it stops at the next start no deeper than the frame below, skipping the loops and branches that directly enclose the current frame |
| Debugger.LeadingBlocks | robotcode/debugger/debugger.py:300-308 | the number of loop and branch frames at the front of the stack |
| Debugger.Debugger.SetBreakpoints | robotcode/debugger/debugger.py:318-339 | clearing a known file removes its entry; any other request for a file with a path stores its breakpoints and answers each as verified, in order; no path changes nothing |
| Debugger.Debugger.SetExceptionBreakpoints | robotcode/debugger/debugger.py:900-924 | the old set is cleared; each option is answered, verified exactly for a supported filter; the request is stored when some filter is supported; no options gives None |
| Debugger.StoredFilterCatches | robotcode/debugger/debugger.py:900-924 | the stored exception breakpoints catch a filter id exactly when one of the options has it |
| Debugger.Debugger.ProcessStartState | robotcode/debugger/debugger.py:341-456 | the state, stepping request, events and hit counts become StartOutcome: nothing happens while stopped; otherwise a due stepping request pauses with its reason and is cleared, then the breakpoints at this line are scanned |
| Debugger.Debugger.ScanBreakpoints | robotcode/debugger/debugger.py:404-456 | the loop over the line's breakpoints does what the specified scan does |
| Debugger.Debugger.ScanPoint | robotcode/debugger/debugger.py:405-456 | one turn of that loop does what one specified step does |
| Debugger.OnLine | robotcode/debugger/debugger.py:402 | exactly the file's breakpoints on the line |
| Debugger.Idents | robotcode/debugger/debugger.py:453 | the ids of the breakpoints, in order |
| Debugger.Count | robotcode/debugger/debugger.py:416-420 | the entry's count goes up by one from 0; no other count changes |
| Debugger.SourceOf | robotcode/debugger/debugger.py:437 | a log point names its source exactly when the path is non-empty |
| Debugger.PlainBreakpointsAllStop | robotcode/debugger/debugger.py:444-456 | at a line of plain breakpoints, each pauses and sends a stop naming all of them, and no count changes |
| Debugger.ScanShape | robotcode/debugger/debugger.py:404-456 | a scan only appends events, changes no count but the line's own, and pauses only after a breakpoint stop |
| Debugger.HitConditionSkipsNthHit | robotcode/debugger/debugger.py:416-427 | a hit-count breakpoint with condition N counts each visit and pauses on every visit except the N-th |
| Debugger.OneVisit | robotcode/debugger/debugger.py:416-427 | one visit counts one hit and pauses exactly when the count differs from N |
| Debugger.Debugger.ProcessEndState | robotcode/debugger/debugger.py:458-478 | a failure pauses, with an exception stop, exactly when a stored exception breakpoint has the filter id |
| Debugger.Debugger.WaitForRunning | robotcode/debugger/debugger.py:480-482 | when it returns the session is running or stopped; a paused session takes the state the client set; settings, stepping request, hit counts, frames and events are as they were |
| Debugger.Debugger.AddStackFrameEntry | robotcode/debugger/debugger.py:520-546 | a new frame with a fresh id goes on top; a missing source comes from the most recent frame that has one, a missing line or column from the top frame, else 0 |
| Debugger.FillFromFrames | robotcode/debugger/debugger.py:525-534 | the loop finds the specified source, line and column |
| Debugger.FirstSource | robotcode/debugger/debugger.py:525-534 | the source of the most recent frame that has one, none exactly when no frame has one |
| Debugger.Debugger.PopFrame | robotcode/debugger/debugger.py:589-590 | the top frame is popped if there is one; the state, events, settings, stepping request and hit counts are as they were |
| Debugger.Debugger.StartSuite | robotcode/debugger/debugger.py:548-576 | the suite's frame is pushed; when debugging it pauses on entry once if asked to, otherwise for a suite with a source the state, stepping request, events and hit counts become StartOutcome at the new frame's source, line and depth; without processing nothing else changes |
| Debugger.Debugger.StartTest | robotcode/debugger/debugger.py:592-606 | the test's frame is pushed; when debugging a test with a source the state, stepping request, events and hit counts become StartOutcome at the new frame's source, line and depth; otherwise nothing else changes |
| Debugger.Debugger.StartKeyword | robotcode/debugger/debugger.py:622-639 | a keyword not run pushes no frame and changes nothing; any other pushes its frame, and when debugging with a source the state, stepping request, events and hit counts become StartOutcome at the new frame; otherwise nothing else changes |
| Debugger.Debugger.EndSuiteOrTest | robotcode/debugger/debugger.py:578-620 | when debugging, a failure pauses under the matching filter with an exception stop quoting the message; then the top frame is popped; the stepping request and hit counts are as they were |
| Debugger.Debugger.EndSuite | robotcode/debugger/debugger.py:578-590 | pauses exactly for a failure under the failed_suite filter, sending "Suite failed." with the failure text, otherwise state and events are as they were; then pops the top frame |
| Debugger.Debugger.EndTest | robotcode/debugger/debugger.py:608-620 | pauses exactly for a failure under the failed_test filter, sending "Test failed." with the failure text, otherwise state and events are as they were; then pops the top frame |
| Debugger.Debugger.EndKeyword | robotcode/debugger/debugger.py:641-651 | a run keyword may pause under the failed_keyword filter, quoting the last failure message; the top frame is popped in every case; the stepping request and hit counts are as they were |
| Debugger.NotRunKeywordPopsEnclosingFrame | robotcode/debugger/debugger.py:622-651 | a keyword not run pushes no frame but its end pops one, so the suite's frame is gone before the suite ends |
| Debugger.Debugger.LogMessage | robotcode/debugger/debugger.py:684-704 | a FAIL message is remembered; with log output on, the message is sent as output at the top frame, otherwise nothing is sent; the stepping request, hit counts and frames are as they were |
| Debugger.Debugger.StackTrace | robotcode/debugger/debugger.py:661-682 | exactly the frames from the start frame on, each with its id, name, line, column and source: `levels` plus one of them when that many remain, otherwise all the rest (all when `levels` is 0 or missing) |
| Debugger.Slice | robotcode/debugger/debugger.py:667-679 | the frames from start up to stop, clipped to the stack, each converted field by field |
| Listeners.Text | robotcode/debugger/debugger.py:549-552 | a string attribute exactly when the key holds a string |
| Listeners.LineNo | robotcode/debugger/debugger.py:550 | a missing line number reads as 1 |
| Listeners.ListenerV2.constructor | robotcode/debugger/listeners.py:18-22 | no failed keywords and no failure message yet |
| Listeners.ListenerV2.StartSuite | robotcode/debugger/listeners.py:24-31 | `robotStarted` is sent before the debugger sees the suite, which then pushes its frame |
| Listeners.ListenerV2.EndSuite | robotcode/debugger/listeners.py:33-47 | the debugger ends the suite, popping its frame, before `robotEnded` carries the failed keywords |
| Listeners.ListenerV2.StartTest | robotcode/debugger/listeners.py:49-58 | the failed keywords start afresh; `robotStarted` precedes the debugger's frame |
| Listeners.ListenerV2.EndTest | robotcode/debugger/listeners.py:60-75 | `robotEnded` carries the test's failed keywords, which are then dropped |
| Listeners.ListenerV2.StartKeyword | robotcode/debugger/listeners.py:77-88 | `robotStarted` is sent first; a keyword not run pushes no frame |
| Listeners.ListenerV2.EndKeyword | robotcode/debugger/listeners.py:90-103 | a failed keyword with a source goes to the front of the failed keywords, with the last failure message; `robotEnded` comes last |
| Listeners.FailedKeyword | robotcode/debugger/listeners.py:95-99 | the attributes, plus the last failure message under "message" unless the attributes carry one |
| Listeners.ItemId | robotcode/debugger/listeners.py:116 | the name of the innermost suite or test frame, none exactly when there is none |
| Listeners.LogBody | robotcode/debugger/listeners.py:118-124 | the item and the top frame's position, then the message's own fields, which win |
| Listeners.ListenerV2.LogMessage | robotcode/debugger/listeners.py:105-126 | as written: a FAIL message is only remembered and reaches neither the client nor the debugger; any other is sent as `robotLog`, then handed to the debugger |
| Listeners.ListenerV2.LogMessageForwarded | robotcode/debugger/listeners.py:105-126 | corrected: a FAIL message is also handed to the debugger |
| Listeners.FailureTextLost | robotcode/debugger/listeners.py:108-110 | as written, a keyword failure stop reads "Keyword failed: None" even after a FAIL message |
| Listeners.FailureTextForwarded | robotcode/debugger/listeners.py:108-110 | corrected, the stop quotes the failure message |
| Listeners.EnqueueOncePerItem | robotcode/debugger/listeners.py:165-174 | `robotEnqueued` lists each suite and test exactly once, and the suite itself last |
| Listeners.EnqueueAllOncePerItem | robotcode/debugger/listeners.py:165-172 | the same for a list of suites and tests |
| Listeners.StartSuiteV3 | robotcode/debugger/listeners.py:162-182 | exactly one `robotEnqueued` event with the suite's items is sent |
| Launcher.ConnectTimeout | robotcode/debugger/launcher/server.py:148 | the launcher timeout when set and non-zero, otherwise 5 |
| Launcher.BuildRunArgs | robotcode/debugger/launcher/server.py:154-195 | the step-by-step construction builds the specified command line |
| Launcher.LauncherSwitches | robotcode/debugger/launcher/server.py:154-175 | the interpreter, the launcher and its own switches, in order |
| Launcher.AppendPaths | robotcode/debugger/launcher/server.py:184-186 | `-P` and the path are appended for each path |
| Launcher.AppendVariables | robotcode/debugger/launcher/server.py:188-190 | `-v` and `name:value` are appended for each variable |
| Launcher.PathArgsPairs | robotcode/debugger/launcher/server.py:184-186 | each path becomes "-P" followed by the path, in order |
| Launcher.VariableArgsPairs | robotcode/debugger/launcher/server.py:188-190 | each variable becomes "-v" followed by `name:value`, in order |
| Launcher.RunArgsLayout | robotcode/debugger/launcher/server.py:154-195 | the command line starts with the interpreter, `-u`, the launcher, its port and its timeout; "--" follows the switches and launcher arguments; a target comes last |
| Launcher.DebugFlagsPresent | robotcode/debugger/launcher/server.py:159-163 | "-n" appears exactly without debugging, "-dp" exactly when attaching Python while debugging |
| Launcher.OutputFlagsPresent | robotcode/debugger/launcher/server.py:165-175 | each output switch appears exactly when its option is set |
| Launcher.Environment | robotcode/debugger/launcher/server.py:197 | the same keys, None becoming the empty string; no environment gives an empty one |
| Launcher.ConsoleFor | robotcode/debugger/launcher/server.py:199-229 | the two terminals are asked of the client, the internal console or none spawns a subprocess, anything else fails with its name |
| Launcher.OutputCategory | robotcode/debugger/launcher/server.py:41-49 | stdout exactly for fd 1, stderr exactly for fd 2, no category otherwise |
| Launcher.AdvertisedFiltersAccepted | robotcode/debugger/launcher/server.py:91-115 | the advertised exception filters are exactly those the debugger accepts |
| Launcher.Disconnect | robotcode/debugger/launcher/server.py:241-248 | forwarded while connected and not terminated, nothing when connected but terminated; without a connection the client is told the run terminated |
| Launcher.TerminateAsWritten | robotcode/debugger/launcher/server.py:249-255 | as written: with no client yet, reading `client` raises "Client not defined." |
| Launcher.Terminate | robotcode/debugger/launcher/server.py:249-255 | corrected: forwarded exactly while connected, otherwise the client is told the run terminated |
| Launcher.TerminateRaisesWithoutClient | robotcode/debugger/launcher/server.py:241-255 | before launch connects, disconnect reports termination but terminate as written raises |
| Launcher.UnknownCommand | robotcode/debugger/launcher/server.py:257-262 | forwarded exactly while connected, otherwise answered as an unknown command |

## Left out

- I/O, sockets, processes, logging and asyncio scheduling: writes and events are appended to logs, and futures are records (waiting, resolved, rejected or failed).
- `wait_for_running` and the `threading.Condition` waiting: only the state when the wait returns is modelled, with the state the client set as a parameter.
- Debugger.Debugger.WaitForRunning: does not model blocking; it states only what holds on return.
- `evaluate`, `set_variable`, `get_scopes`, `get_variables`, `get_threads` and the singleton machinery of the session: these depend on the Robot Framework execution context and object identity.
- The message output events (`message`, output groups) of the debugger and listeners: these are formatting on top of the logged events.
- The listeners' file callbacks (`output_file`, `log_file` and the like): they only forward paths.
- Path resolution, condition evaluation, variable substitution and `int()` of a hit condition: these are parameters of the session's context. A raising evaluation reads as "not met". `id()` of a breakpoint is an explicit ident.
- `from_dict`, `as_json` and `inspect.signature`: a handler's signature is an explicit parameter list. The converted object is given by its attribute names.
- The registry's reflective `__ensure_initialized`: the registry starts from a list of entries.
- Framing.JsonRpcRoundTrip: requires a body with no CR LF pair. JSON text never contains a raw carriage return.
- Framing.DapRoundTrip: requires a body with no CR LF pair, for the same reason.
- Dap.DebugAdapterProtocol.HandleResponse: the body of an unsuccessful response is not carried into the failure; the future fails with an error response made of the response's seq, command and message only.
- JSON numbers: they are integers; floating-point numbers are not represented.
- Text.IsDigit: only the ASCII digits count, whereas Python's `\d` and `int()` also accept other Unicode decimal digits; the version strings Robot Framework reports use ASCII digits.
- The launcher's `console` default (`integratedTerminal` when the launch request names none): it is applied before the launch arguments reach the model.
- Character decoding: bodies are handed on with the charset their header names. Only ASCII-compatible charsets are followed to the end.
- The `collect` event dispatch of the language-server parts: collector answers are given as a list of returned, `None` or raised results.
- `get_node_at_position`, `iter_nodes_at_position` and the keyword-documentation lookup: the statement's tokens and the lookup are parameters.
- `tokenize_variables`, the type check and `VariableIterator` in front of `_tokenize_variables`: the variable matches are given.
- The AST's `generic_visit` over fields: it is modelled as an ordered list of children.
- The ast.AST class identity: it is modelled by the class name `AST`.
- The configuration request to the client in `get_configuration`, and the `ConfigBase` conversion: only the settings fallback walk is modelled.
- Uri comparison: a uri is its string, and its length is the string's length. `Path.is_relative_to` is a parameter.
- The one-element-tuple watcher form in `add_file_watchers` and the watcher registration request: only the normalisation is modelled.
- The dead `argument_index = 0` branch: it is not modelled.
- `kw_node.tokens.index(...)`: a token is known by its index in the statement; `list.index` compares with `==`, and the tokens of a statement sit at distinct positions.
- The entry points, servers and transports of the debugger, launcher and language server: these are process plumbing.
- The language server's own protocol, the formatting part and the logging utilities: they have no behaviour of their own to state.

## Findings

| source | as written | input that shows it | evidently intended | confidence | as-written member | corrected member |
|---|---|---|---|---|---|---|
| robotcode/jsonrpc2/protocol.py:568-569 | `handle_error` raises the peer's error and never touches the pending-request table | an error reply to a request this side sent | the pending entry is removed and its future fails with the error, as `handle_response` and the debug adapter's `handle_error_response` do | not executed | JsonRpc.ErrorReplyLeavesRequestWaiting | JsonRpc.ErrorReplyRejectsRequest |
| robotcode/debugger/listeners.py:108-110 | a FAIL log message returns before it is handed to the debugger, so the debugger's last failure message is never set | a FAIL message, then a failing keyword under a failed_keyword exception breakpoint: the stop reads "Keyword failed: None" | the FAIL message also reaches the debugger, so the stop quotes it | not executed | Listeners.FailureTextLost | Listeners.FailureTextForwarded |
| robotcode/debugger/launcher/server.py:249-255 | `_terminate` reads `self.client`, which raises when no client exists | terminate before launch has connected: it raises "Client not defined." | the same connection test as `_disconnect`, answering with a terminated event | not executed | Launcher.TerminateRaisesWithoutClient | Launcher.Terminate |
| robotcode/language_server/common/parts/workspace.py:337-349 | the folders of removed and of added uris are collected together and each removed with `list.remove` | one event that removes and re-adds the same uri: its folder is collected twice, and the second removal raises ValueError | each folder with an announced uri is dropped once, and the added folders are appended | not executed | Workspace.ReannouncedFolderRaises | Workspace.Workspace.ChangeWorkspaceFolders |
