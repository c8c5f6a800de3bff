# Hydropark client: a verified model

This project models the deterministic core of the Hydropark desktop client and the small programs around it,
and proves what its documentation and tests promise. It stands alone: Dafny 4.11 checks it with
`dafny verify dfyconfig.toml`.

The system answers a user's chat offline with a local model that may call five first-party tools. Skills are
packages a user enables; each carries a manifest. The model covers:

- **Reading what the model wrote** (`Json`, `Scanner`, `ToolCall`, `Classification`, `Grammar`). Three call syntaxes
  are recognised by hand-written, quote-aware scanners; a decoding grammar is meant to produce only what they accept.
  JSON is a value type with concrete syntax trees, and the reader is proved to invert the printer.
- **Showing it** (`Utf8Stream`, `Tokens`, `Subsequence`, `Sanitizer`, `SanitizerText`, `SanitizerTwice`,
  `SanitizerKeeps`, `SanitizerLimits`). Token bytes are streamed through an incremental UTF-8 decoder and the final
  prose is stripped of leaked tool traffic; when one pass of that is enough, and what it keeps, is proved too.
- **Downloading the model** (`Download`, `DownloadProtocol`, `DownloadHistory`). One run of the resumable download
  over a file it updates in place, and the manager as a step protocol over disk, server, shared status and cancel
  flags.
- **Skill manifests** (`ManifestSchema`, `ManifestFormats`, `ManifestValidator`, `ManifestMeaning`,
  `ManifestNormal`, `ManifestKeeps`, `ManifestFixedPoint`). The issue list of every part, the validator that appends
  it, what an empty list and each issue mean, and the normalization to the canonical form.
- **Composing skills** (`Order`, `Orchestrator`, `OrchestratorLaws`, `ToolAccounting`, `Capacity`, `Composition`,
  `MergeView`, `CompositionLaws`, `Shorthand`, `CompositionAgreement`, `CompositionExamples`). Merge, capacity gate
  and pipeline, and the laws between raw and canonical manifests.
- **Licenses** (`KeyWindow`, `LicenseRefusals`), **session refresh** (`Refresh`, `RefreshRetry`),
  **unlock codes** (`UnlockCodes`) and the **allergen layer** (`Allergen`).

Code that changes state step by step is imperative here too, and proved against the function or relation its
lemmas are about. Strings are sequences of Unicode scalar values (`Text`). What the client takes from outside is
a parameter, and every result holds for all of them: the conversion of a number literal to a 64-bit number
(`num`), hashes, signature checks, base64, Unicode case mapping, the server's answers, the moments at which a process
dies.

Where the code and its own comments differ, the code is followed and the difference stated:

- `capacity.rs` says exactly one of remainder and overflow is non-zero; on an exact fit both are zero (`GateExact`).
- A comment in `inference.rs` (line 1943) says grammar-constrained output is either pure prose or one well-formed
  call. `ToolCallAgreement` gives the exact exceptions for calls: raw control characters or a closing tag inside a
  string, leading zeros, numbers out of range. `ProseAgreement` gives the one for prose: `<<tool_call>`.
- The documentation of the call syntax says argument values are JSON scalars; the code takes any JSON text that has no
  comma outside quotes (`KwargsIff`).
- Normalizing is meant to be stable; a dollar price under half a cent becomes zero cents, which validation then
  refuses (`CheapIsLost`).
- Sanitizing is described as a clean-up layer that guarantees what reaches the chat; one pass can leave text that a
  second would still delete (`TornSecondPass`, `UnsettledSecondPass`).
- The cost estimate is never validated, so the merge view accepts it written as a JSON array, which the canonical
  form drops (`ArrayCostDisagrees`).

## Model

| member | source | states |
|---|---|---|
| Json.ParseText | client/src-tauri/src/inference.rs:72-79 | Reading a (possibly non-conforming) JSON tree's text gives exactly its value and what follows it when the tree conforms to RFC 8259 and nests no deeper than the library allows, and fails otherwise |
| Json.ParseOrigin | client/src-tauri/src/inference.rs:72-79 | Whatever the JSON reader accepts is the text of a conforming tree with that value |
| Json.FromStrIffJson | client/src-tauri/src/inference.rs:72-79 | A whole text parses to a value if and only if it is white space around a conforming tree of that value |
| Scanner.BalancedJsonObjectEnd | client/src-tauri/src/inference.rs:85-117 | The brace scanner's loop returns the end the recursive definition gives, for every text |
| Scanner.BalancedParenEnd | client/src-tauri/src/inference.rs:155-184 | The same for the parenthesis scanner |
| Scanner.ObjectEndIsShortest | client/src-tauri/src/inference.rs:85-117 | The end is returned if and only if it is the shortest prefix with brace depth zero outside strings; so it is unique |
| Scanner.ClosingIsShortest | client/src-tauri/src/inference.rs:85-184 | The same for either bracket pair and from any scanner state |
| Scanner.ObjectEndOfText | client/src-tauri/src/inference.rs:85-117 | On any JSON object's text followed by anything, the scanner returns exactly the object's length |
| Scanner.TreePast | client/src-tauri/src/inference.rs:85-184 | Scanning any JSON tree's text leaves depth and quote state where they were |
| Scanner.SplitTopLevel | client/src-tauri/src/inference.rs:192-218 | The splitting loop computes the quote-aware split |
| Scanner.SplitJoins | client/src-tauri/src/inference.rs:192-218 | Joining the parts with the separator gives the text back: nothing is lost |
| Scanner.SplitTopExact | client/src-tauri/src/inference.rs:192-218 | The parts are the result if and only if they join to the text, none has a separator outside quotes, and every part but the last closes its quotes |
| Scanner.ScalarJoins | client/src-tauri/src/inference.rs:192-218 | A scalar's text, whatever it quotes, is never split |
| ToolCall.FunctionCallRoundTrip | client/src-tauri/src/inference.rs:155-384 | A catalog name with printed arguments and any trailing text parses back as that tool with exactly those arguments, unless the text contains the opening tag |
| ToolCall.ArgsValueExact | client/src-tauri/src/inference.rs:247-263 | With distinct keys the arguments read back are the printed ones, each key with its value, no more and no fewer |
| ToolCall.BareObjectReads | client/src-tauri/src/inference.rs:134-146 | A leading object is read alone, everything after it discarded, and is a call exactly when it conforms and has the call shape |
| ToolCall.BareCallRoundTrip | client/src-tauri/src/inference.rs:134-146 | A generation opening with a call-shaped object is that call, whatever follows |
| ToolCall.WrappedRoundTrip | client/src-tauri/src/inference.rs:72-79 | The text between tags is classified by its value exactly when it is conforming JSON without a closing tag inside a string; otherwise the generation is malformed |
| ToolCall.CutObjectRejected | client/src-tauri/src/inference.rs:72-79 | An object cut short by a closing tag inside one of its strings never parses |
| ToolCall.LeakIffBareObject | client/src-tauri/src/inference.rs:336-343 | The leak test holds if and only if the text is one conforming object that is not a call |
| Classification.UnwrappedExact | client/src-tauri/src/inference.rs:356-384 | A text without the opening tag is a call, and of what, if and only if, trimmed, it opens with a conforming call-shaped object or with a catalog invocation whose arguments read; it is malformed if and only if it is one conforming object that is no call; and any other is prose, trimmed |
| Classification.WrappedExact | client/src-tauri/src/inference.rs:356-384 | A text with the opening tag is a call, and of what, if and only if the text between the first opening tag and the next closing one is JSON with a non-empty name; otherwise it is malformed |
| Classification.KwargsIff | client/src-tauri/src/inference.rs:247-263 | An argument list reads as an object if and only if its parts between the commas outside quotes are blank or `key: value` with an identifier and a JSON text, the last of each name counting |
| ToolCall.ObjectEndStable | client/src-tauri/src/inference.rs:85-146 | Text after a closed object does not move its end |
| ToolCall.FindsTool | client/src-tauri/src/inference.rs:293-304 | At most one catalog name can open a function-style call, and it is the one found |
| Grammar.ToolCallAgreement | client/src-tauri/src/grammar.rs:37-114 | For every tool subset, everything the call branch derives is read back as that tool's call with arguments of the derived type, exactly when it is conforming JSON without a closing tag in a string; otherwise it is malformed |
| Grammar.CallValue | client/src-tauri/src/grammar.rs:71-114 | A value of a tool's call type names that tool and carries arguments of its argument type, an integer among them being one read off a lexeme without point or exponent |
| Grammar.GrammarNumberConforms | client/src-tauri/src/grammar.rs:116-129 | A number the grammar derives is an RFC 8259 section 6 number if and only if it has no leading zero |
| Grammar.DeriveKind | client/src-tauri/src/grammar.rs:71-129 | Every text a grammar rule derives is a JSON tree of that rule's type |
| Grammar.ProseAgreement | client/src-tauri/src/grammar.rs:126-129 | A prose-branch text reaches the wrapped parser if and only if it contains `<<tool_call>` |
| Grammar.ProseIsShownIff | client/src-tauri/src/grammar.rs:126-129 | What the prose branch derives is shown, trimmed, if and only if it does not contain `<<tool_call>`, does not open like a call and is not one bare object |
| Grammar.ProseCounterexample | client/src-tauri/src/grammar.rs:126-129 | `<<tool_call>` is prose to the grammar and malformed to the parser |
| Tokens.SplitTokens | client/src-tauri/src/inference.rs:980-998 | The tokens concatenate to the text and are its alternating runs of space and non-space |
| Tokens.RunsUnique | client/src-tauri/src/inference.rs:980-998 | A text has only one such list of runs |
| Utf8Stream.Utf8Buffer.TakeValidUtf8 | client/src-tauri/src/inference.rs:1868-1889 | Drains the buffer: the returned piece and the kept rest are those of the reference function |
| Utf8Stream.Utf8Buffer.ScanValid | client/src-tauri/src/inference.rs:1868-1889 | Measures the longest well-formed prefix |
| Utf8Stream.StreamTokens | client/src-tauri/src/inference.rs:1811-1850 | The token loop emits what the reference stream emits and keeps what it keeps |
| Utf8Stream.TakePartitions | client/src-tauri/src/inference.rs:1868-1889 | Piece and rest are in order in the buffer, the piece is well-formed, the rest is the start of one character |
| Utf8Stream.CutIsProperPrefix | client/src-tauri/src/inference.rs:1868-1889 | Bytes wait in the buffer if and only if they are a proper prefix of one RFC 3629 character |
| Utf8Stream.CharIff | client/src-tauri/src/inference.rs:1868-1889 | What is taken for a character is exactly the RFC 3629 section 3 encoding of a Unicode scalar value |
| Utf8Stream.BadStretch | client/src-tauri/src/inference.rs:1868-1889 | An invalid stretch is one byte, or the longest beginning of a character |
| Utf8Stream.StreamRefines | client/src-tauri/src/inference.rs:1811-1850 | For every chunking of a valid text, emitted bytes followed by the buffer are the bytes fed so far, and the buffer is at most three bytes of one character |
| Utf8Stream.StreamIsComplete | client/src-tauri/src/inference.rs:1811-1850 | When the bytes fed are a valid text, all of it is emitted and the buffer ends empty |
| Utf8Stream.StreamOnlyDeletes | client/src-tauri/src/inference.rs:1811-1850 | For arbitrary bytes the output is valid UTF-8 and a subsequence of the input |
| Utf8Stream.AllEmittedIff | client/src-tauri/src/inference.rs:1811-1850 | Everything fed is emitted if and only if the bytes fed are well-formed UTF-8 |
| Utf8Stream.WithheldIff | client/src-tauri/src/inference.rs:1868-1889 | The buffer is left holding more than the start of one character if and only if the last call saw whole characters, one invalid stretch and then what is left: one invalid stretch is dropped per call, and whatever follows it waits for another token |
| Utf8Stream.TailWithheld | client/src-tauri/src/inference.rs:1811-1889 | The smallest instance: when the stream ends after `FF 61`, the letter after the stray byte is withheld |
| Sanitizer.StripSpans | client/src-tauri/src/inference.rs:671-692 | The span-stripping loop computes the recursive definition |
| Sanitizer.StripToolResultEchoFragments | client/src-tauri/src/inference.rs:713-763 | The in-place deletion loop terminates and computes the recursive definition |
| Sanitizer.CollapseBlankLines | client/src-tauri/src/inference.rs:769-784 | The collapsing loop computes the recursive definition |
| Sanitizer.Sanitize | client/src-tauri/src/inference.rs:805-818 | The pass order and the line filter compute the reference sanitizer |
| Sanitizer.SanitizeDeletes | client/src-tauri/src/inference.rs:805-818 | The output is a subsequence of the input: the sanitizer only deletes |
| Sanitizer.SanitizeLeavesNoLeak | client/src-tauri/src/inference.rs:769-818 | No output line is a bare non-call object, no trailing space, no two blank lines in a row, trimmed at both ends |
| Sanitizer.FirstEchoExact | client/src-tauri/src/inference.rs:713-763 | The fragment search finds something if and only if some removable fragment exists anywhere |
| Sanitizer.StripEchoesLeavesNone | client/src-tauri/src/inference.rs:713-763 | Echo stripping ends with no removable fragment of any tool left |
| Sanitizer.UnchangedIffClean | client/src-tauri/src/inference.rs:805-818 | Text passes through unchanged if and only if it has no complete span, no fragment, no leaking line and is tidy |
| SanitizerKeeps.SpansBetween | client/src-tauri/src/inference.rs:671-692 | Stripping spans keeps exactly what stands between them: each span runs from the first opening prefix to the first closing tag after its `>`, and no complete span follows the last |
| SanitizerKeeps.FragmentsCut | client/src-tauri/src/inference.rs:713-763 | On sound text, removing the fragments cuts each line down to what stands before its fragment, if it has one, and touches nothing else |
| SanitizerKeeps.TidyLinesShow | client/src-tauri/src/inference.rs:769-818 | On every text, the clean-up shows exactly the lines that are neither blank nor a bare non-call object: in order, without trailing white space, the first without leading white space |
| SanitizerKeeps.SanitizeShows | client/src-tauri/src/inference.rs:805-818 | Of a text whose tags are not torn and whose labels are settled, the sanitizer shows exactly the lines outside the spans, each without its fragment, that are neither blank nor a bare non-call object |
| Sanitizer.IdempotentIff | client/src-tauri/src/inference.rs:805-818 | A second pass changes nothing if and only if the first left no complete span and no removable fragment: the step to the condition on the input |
| SanitizerText.SpanIff | client/src-tauri/src/inference.rs:671-692 | A complete span is found if and only if an opening prefix, a `>` and a closing tag occur in that order without overlap |
| SanitizerText.EchoIff | client/src-tauri/src/inference.rs:713-763 | An occurrence of a name is removed up to a place if and only if a label stands there, then white space, then a conforming JSON object ending at that place, then nothing but white space on the line |
| SanitizerTwice.NoSpanLeft | client/src-tauri/src/inference.rs:671-692 | When no tag or label is cut short by another, one pass over the spans leaves no complete span |
| SanitizerTwice.TidyChains | client/src-tauri/src/inference.rs:769-818 | Dropping leaking lines and tidying bring no tags together: a span in the result was there before |
| SanitizerTwice.EchoWasThere | client/src-tauri/src/inference.rs:713-818 | When every label is settled on its own line, dropping leaking lines and tidying make no removable fragment |
| SanitizerTwice.IdempotentWhen | client/src-tauri/src/inference.rs:805-818 | A second pass changes nothing when, in the text that goes in, no tag or catalog label is cut short by the beginning of another and every catalog label is followed on its own line by something that opens no other piece and closes the object it begins, if any |
| SanitizerLimits.TornSecondPass | client/src-tauri/src/inference.rs:805-818 | The first half of that condition is needed: a text whose labels are all settled, with a torn tag, is sanitized further the second time |
| SanitizerLimits.UnsettledSecondPass | client/src-tauri/src/inference.rs:805-818 | The second half is needed: a text with no torn tag, and a label whose object is left open on its line, is sanitized further the second time |
| Download.ValidateParts | client/src-tauri/src/downloader.rs:232-252 | Accepts exactly the part lists that tile the file within 64 bits |
| Download.PartResumeBoundary | client/src-tauri/src/downloader.rs:263-274 | The boundary loop computes the largest part end reached |
| Download.TilesCover | client/src-tauri/src/downloader.rs:232-252 | Every position of the file lies in exactly one part of an accepted list |
| Download.DeltaPlan | client/src-tauri/src/downloader.rs:257-274 | From any amount on disk, what is fetched is exactly the contiguous suffix of parts from the snapped boundary, of total size total minus boundary |
| Download.PartFile.TruncateTo | client/src-tauri/src/downloader.rs:743-756 | Cuts a longer file, leaves a shorter one, removes the file for length zero |
| Download.StreamAppend | client/src-tauri/src/downloader.rs:659-704 | Appends what the reads deliver and reports why it stopped, for every sequence of reads, cancels, torn writes and deaths |
| Download.StreamedExact | client/src-tauri/src/downloader.rs:659-704 | What that is: the reads before the first that stops the loop, whole and in order, then the written part of a torn one; a raised flag, a dropped connection, a torn write, the end of the body or death is the reported reason |
| Download.DownloadBlob | client/src-tauri/src/downloader.rs:566-611 | Against a server of F, from any prefix of F, the file stays a prefix of F and a finished stream leaves exactly F |
| Download.RequestsTheRest | client/src-tauri/src/downloader.rs:213-223 | A partial file, or one of unknown size, is asked for from its end, a complete file is not asked for, and any other is fetched anew |
| Download.DownloadDelta | client/src-tauri/src/downloader.rs:615-655 | The same for the part-wise path, over any tiling of F |
| Download.VerifyModelExact | client/src-tauri/src/downloader.rs:365-381 | A file is accepted if and only if its digest is the trimmed promised one up to ASCII case, the signature parses, a key is pinned to the kid and that key verifies the signature over the digest; a refusal names the first of these checks that fails |
| Download.VerifyAndPromote | client/src-tauri/src/downloader.rs:525-560 | The file becomes the model if and only if the download finished and the file is genuine in that sense; a refusal names the check that failed; otherwise nothing moves |
| DownloadProtocol.RunInv | client/src-tauri/src/downloader.rs:460-560 | Over every interleaving of start, cancel, chunk, failure, finish and death: one driver exactly while downloading or verifying, and every promoted file passed verification under an accepted start of its path |
| DownloadProtocol.PromotedPassedVerifyModel | client/src-tauri/src/downloader.rs:365-560 | In every run each model file is genuine, digest and signature, by the trust data of an accepted start for its path |
| DownloadProtocol.RunOnSource | client/src-tauri/src/downloader.rs:525-704 | Over every fair run of starts, cancels, crashes, drops, 200/206 answers and mode switches each `.part` is a prefix of its source, a driver past its stream has exactly the source, every model is its source |
| DownloadProtocol.ResumesWhereItEnds | client/src-tauri/src/downloader.rs:566-611 | A download of known size continues where the file on disk ends, starts over only when the server answers 200, and fetches nothing when the file is all there |
| DownloadProtocol.SafeNameExact | client/src-tauri/src/downloader.rs:407-409 | A file name keeps letters, digits, dots, dashes and underscores and replaces every other character by an underscore, one for one |
| DownloadProtocol.StartIsClean | client/src-tauri/src/downloader.rs:471-499 | An accepted start owns a flag no cancel has touched and touches no other |
| DownloadProtocol.RaisedBy | client/src-tauri/src/downloader.rs:460-464 | Only a cancel raises a flag, and only the current one |
| DownloadProtocol.CancelHasCause | client/src-tauri/src/downloader.rs:460-464 | Every raised flag was raised by a cancel issued while that flag was current |
| DownloadProtocol.StopsOnOwnFlag | client/src-tauri/src/downloader.rs:659-683 | A driver stops as cancelled only when its own flag was raised |
| DownloadHistory.ModelStays | client/src-tauri/src/downloader.rs:525-560 | A promoted model is never removed or replaced, whatever commands, answers and crashes follow |
| DownloadHistory.NoPartAfterCancel | client/src-tauri/src/downloader.rs:612-655 | A delta download whose flag is raised while parts are left takes none of them: until the next start no file changes, whatever the server answers |
| DownloadProtocol.DownloadManager.Cancel | client/src-tauri/src/downloader.rs:460-464 | Raises the current flag and no other: the protocol's cancel step |
| DownloadProtocol.DownloadManager.Reserve | client/src-tauri/src/downloader.rs:471-491 | Accepts exactly well-formed requests while idle, with a fresh flag; otherwise nothing changes: the protocol's start step |
| DownloadProtocol.DownloadManager.Finish | client/src-tauri/src/downloader.rs:502-521 | Records the ending and leaves the busy phases: the protocol's finish step |
| ManifestSchema.SkillIdIsComponent | client/src-tauri/src/manifest.rs:412-418 | A skill id contains only lower-case letters, digits and dashes: one safe path component |
| ManifestSchema.AssetPathIsRelative | client/src-tauri/src/manifest.rs:457-469 | An asset path has one dot, starting its extension, no colon or backslash, and does not begin with a slash |
| ManifestValidator.Validate | client/src-tauri/src/manifest.rs:491-644 | The validator reports exactly the issues of the schema, in order, not just the first |
| ManifestMeaning.AcceptedIffConforms | client/src-tauri/src/manifest.rs:571-1219 | The report is empty if and only if the manifest is an object whose every section has the required form and whose cross-references hold |
| ManifestMeaning.ReferencesHoldIff | client/src-tauri/src/manifest.rs:1143-1219 | The cross-references raise no issue if and only if every slot a tool reads or writes is declared, panel ids are pairwise distinct, every tool and slot a panel binds is declared, and a default locale is among the declared ones when there are any |
| ManifestMeaning.ReferenceIssuesExact | client/src-tauri/src/manifest.rs:1143-1219 | Every cross-reference issue names one faulty place, and every faulty place is reported with its code |
| ManifestMeaning.DuplicateReported | client/src-tauri/src/manifest.rs:1143-1203 | A panel is reported as a duplicate if and only if an earlier panel has its id |
| ManifestMeaning.DanglingReported | client/src-tauri/src/manifest.rs:1143-1219 | A slot a tool reads or writes is reported as unknown, at its place in the list, if and only if the manifest does not declare it |
| ManifestMeaning.PricingIff | client/src-tauri/src/manifest.rs:682-745 | A pricing section is accepted if and only if it is free and names no price, or is paid and has exactly one of the two price forms, a valid one |
| ManifestMeaning.PersonaIff | client/src-tauri/src/manifest.rs:747-799 | A persona is accepted if and only if both prompts have their lengths, the role is known or absent, and every example has a speaker and text |
| ManifestMeaning.CapabilitiesIff | client/src-tauri/src/manifest.rs:801-901 | Capabilities, tools and slots are accepted if and only if each is absent or a list whose every entry has the required form |
| ManifestMeaning.EnvironmentIff | client/src-tauri/src/manifest.rs:903-1013 | Resources, localization, compatibility and panels are accepted if and only if each is absent or an object of the required form |
| ManifestMeaning.PanelIff | client/src-tauri/src/manifest.rs:1015-1137 | A panel is accepted if and only if its fields, bindings and emits have the required form and it has no key its widget has no use for |
| ManifestMeaning.UnknownKeysExact | client/src-tauri/src/manifest.rs:1126-1137 | For a known widget a key is reported as unknown if and only if it is neither canonical nor that widget's shorthand; for any other widget none is |
| ManifestMeaning.ItemIssuesExact | client/src-tauri/src/manifest.rs:822-901 | The issues of a list are exactly those of its entries, each at its own index |
| ManifestNormal.NormalizeProps | client/src-tauri/src/manifest.rs:1426-1436 | The folding loop computes the reference fold |
| ManifestNormal.FoldedProps | client/src-tauri/src/manifest.rs:1426-1436 | A canonical prop keeps its value, a shorthand key of this widget supplies a missing one, and nothing else appears |
| ManifestKeeps.NormalizeKeeps | client/src-tauri/src/manifest.rs:1227-1519 | Every canonical field that a valid manifest writes stands with the same value in the canonical form, section by section and entry by entry; one that is left out has the default of a table; a dollar price is the whole number of cents within half a cent, ties upward; and there is nothing else |
| ManifestKeeps.PricingStands | client/src-tauri/src/manifest.rs:1331-1353 | A written price keeps its amount and currency, and a dollar price becomes that many cents of USD |
| ManifestKeeps.PanelStands | client/src-tauri/src/manifest.rs:1426-1478 | A panel keeps what it writes, its props and shorthand become the props, its emits stand in order, and the rest is the widget's |
| ManifestKeeps.WidgetTable | client/src-tauri/src/manifest.rs:1227-1272 | Region, events, chat default and shorthand keys of every widget type are those of one table |
| ManifestFormats.SemverIff | client/src-tauri/src/manifest.rs:377-399 | A version is accepted if and only if it is three numbers without leading zeros between dots, then a pre-release tag and build data, if any |
| ManifestFormats.SkillIdIff | client/src-tauri/src/manifest.rs:412-418 | A skill id is 2 to 64 lower-case letters, digits and single inner dashes |
| ManifestFormats.AssetPathIff | client/src-tauri/src/manifest.rs:457-469 | An asset path is at most 128 characters: names between single inner slashes, and `.svg` |
| ManifestFormats.WidgetVersionIff | client/src-tauri/src/manifest.rs:401-405 | A widget version is two or three numbers between dots |
| ManifestFixedPoint.NormalizeFixedPoint | client/src-tauri/src/manifest.rs:491-1519 | Validating the canonical form of an accepted manifest accepts it and returns the same canonical form, if and only if the manifest was not priced in dollars below half a cent |
| ManifestFixedPoint.NamesFixed | client/src-tauri/src/manifest.rs:1143-1203 | The canonical form declares and refers to exactly the names the raw manifest did |
| ManifestFixedPoint.PricingFixed | client/src-tauri/src/manifest.rs:1331-1353 | Canonical pricing is a fixed point, and valid exactly outside the half-cent case |
| ManifestFixedPoint.CentsPositive | client/src-tauri/src/manifest.rs:1344-1349 | A valid dollar price rounds to at least one cent if and only if it is at least half a cent |
| ManifestFixedPoint.ToolsFixed | client/src-tauri/src/manifest.rs:1385-1400 | Canonical tools validate, normalize to themselves, and keep every ref and state reference |
| ManifestFixedPoint.PanelFixed | client/src-tauri/src/manifest.rs:1426-1478 | A canonical panel validates, has no unknown key, normalizes to itself and keeps its bindings |
| ManifestFixedPoint.CheapIsLost | client/src-tauri/src/manifest.rs:1331-1353 | A complete manifest priced at a tenth of a cent is accepted, and its canonical form is not |
| Orchestrator.MergeSkills | client/src-tauri/src/orchestrator.rs:176-222 | The merge loops compute the reference merge: conflict, leader, order, persona and tools |
| Orchestrator.CompatibleIff | client/src-tauri/src/orchestrator.rs:182-194 | A conflict is reported if and only if two enabled skills block each other |
| Orchestrator.PrimaryLeads | client/src-tauri/src/orchestrator.rs:224-244 | The leader is the hinted skill when enabled and eligible, else the best ranked eligible skill, else nobody |
| Orchestrator.LeaderUnique | client/src-tauri/src/orchestrator.rs:224-244 | That description determines the leader |
| Orchestrator.PersonaShape | client/src-tauri/src/orchestrator.rs:246-269 | The persona is a list of non-empty parts with blank lines between: the base if not blank, the leader's prompt if not blank, and exactly one mention for each secondary with a non-blank compressed prompt, in order |
| Orchestrator.PersonaPartsUnique | client/src-tauri/src/orchestrator.rs:246-269 | That description determines the parts |
| OrchestratorLaws.AgentSpeaks | client/src-tauri/src/orchestrator.rs:176-269 | The merged agent's persona has the primary's own prompt and a mention of every other skill that has one, in the agent's own order |
| Orchestrator.ComposeTools | client/src-tauri/src/orchestrator.rs:271-316 | The grouping, distinctness and sorting loops compute the reference tool union |
| Orchestrator.CountDistinct | client/src-tauri/src/orchestrator.rs:292-299 | At most one distinct configuration is collected if and only if all declarations agree |
| Order.SortedUnique | client/src-tauri/src/orchestrator.rs:200-206 | Where equal rank means equality, a sorted arrangement is unique |
| OrchestratorLaws.MergePermutes | client/src-tauri/src/orchestrator.rs:176-222 | With distinct ids, listing the skills in another order changes neither whether they merge nor the agent |
| OrchestratorLaws.NamedConflicts | client/src-tauri/src/orchestrator.rs:182-194 | The conflicts that some listing of the skills names are exactly the pairs of enabled skills that block each other |
| OrchestratorLaws.ListingInvisibleIff | client/src-tauri/src/orchestrator.rs:176-222 | With distinct ids, every listing gives one and the same result, the named conflict included, if and only if no two pairs of skills that block each other differ |
| OrchestratorLaws.ReportFollowsListing | client/src-tauri/src/orchestrator.rs:182-194 | Three skills whose named conflict does follow the listing |
| OrchestratorLaws.OrderShape | client/src-tauri/src/orchestrator.rs:196-216 | The order lists every skill once: the leader, then the rest by priority descending and id ascending |
| OrchestratorLaws.OrderByPriority | client/src-tauri/src/orchestrator.rs:196-206 | Behind the primary, of two skills the one with the higher priority comes first, and among equals the one whose id comes first |
| Order.LeIff | client/src-tauri/src/orchestrator.rs:200-206 | Ids are compared lexicographically: a prefix first, otherwise by the first difference |
| OrchestratorLaws.RemoveSecondary | client/src-tauri/src/orchestrator.rs:176-222 | Removing a skill that does not lead keeps success and leader and deletes exactly its id from the order |
| ToolAccounting.SharedInMergeOrder | client/src-tauri/src/orchestrator.rs:271-316 | A shared tool lists all its declarers, and in merge order |
| ToolAccounting.ToolsAccounted | client/src-tauri/src/orchestrator.rs:271-316 | Call names strictly increase and say what they name, each declared (skill, ref) pair is served by exactly one tool, no contributor is invented, and a tool is shared exactly when its declarers agree |
| Capacity.ReserveIsLeast | client/src-tauri/src/capacity.rs:138-142 | The working reserve is the least number of tokens that is at least 512 and, four times over and three more, reaches the window |
| Capacity.GateExact | client/src-tauri/src/capacity.rs:132-185 | Over that reserve every figure is the true one capped once; the gate blocks if and only if the true total exceeds the window (below the cap); overflow and remainder are never both non-zero, and both zero on an exact fit |
| Capacity.FoldExact | client/src-tauri/src/capacity.rs:132-166 | Nested saturating costs equal the saturated true sum |
| Capacity.SumMonotone | client/src-tauri/src/capacity.rs:159-166 | A sub-list in any order costs no more |
| Capacity.FitsDownward | client/src-tauri/src/capacity.rs:159-185 | What fits still fits with fewer skills in any order, with no less room |
| Composition.ComposeAgent | client/src-tauri/src/composition.rs:83-115 | The pipeline's loops and early returns compute the reference pipeline, whose outcome is the first thing wrong with the manifests: the first invalid one, the first unreadable one, a conflict, an overflow by exactly what the true total exceeds the window; otherwise an agent with exactly the room that is left |
| Composition.OutcomeExact | client/src-tauri/src/composition.rs:83-115 | That outcome, as a property of the reference pipeline, for every list of manifests |
| MergeView.ViewIff | client/src-tauri/src/orchestrator.rs:33-122 | The composer reads a manifest, and as what, if and only if the view shows its members: texts, role, tools with their configurations, conflicts, priority and cost, each with its default when left out |
| CompositionLaws.ComposesDownward | client/src-tauri/src/composition.rs:83-115 | If a list of manifests composes, every sub-list does, in any order, under any hint and preamble |
| CompositionAgreement.RawAgreesWithCanonical | client/src-tauri/src/composition.rs:89-115 | For valid, readable manifests of skills with distinct ids, composing them and composing their canonical forms give the same result if and only if none is priced below half a cent in shorthand and, unless two skills conflict, dropping array cost records leaves the capped total as it is and, if that fits, no tool's configuration is only omitted or empty, both ways |
| CompositionAgreement.ValidView | client/src-tauri/src/composition.rs:89-107 | A valid manifest has a merge view if and only if its cost record can be read, and the view is what its canonical form says up to omitted configurations |
| CompositionAgreement.CanonView | client/src-tauri/src/composition.rs:99-107 | The merge view of a canonical form is the raw view with omitted configurations filled in and a cost record written as an array dropped |
| CompositionAgreement.SubCentRejected | client/src-tauri/src/composition.rs:89-98 | The canonical form of a manifest priced below half a cent in shorthand does not validate |
| CompositionExamples.CheapDisagrees | client/src-tauri/src/composition.rs:83-115 | A whole manifest at a tenth of a cent: it composes, its canonical form does not validate |
| CompositionExamples.ArrayCostDisagrees | client/src-tauri/src/composition.rs:83-115 | A whole manifest with the cost record `[4000]`: composing it and its canonical form give different results for every context window |
| CompositionExamples.OmittedDisagrees | client/src-tauri/src/composition.rs:83-115 | Two whole manifests that share a tool, one omitting its configuration and one leaving it empty, and whose canonical forms compose differently |
| Shorthand.MergeFill | client/src-tauri/src/orchestrator.rs:271-316 | Filling in omitted configurations changes nothing but the tools, and those exactly in the omitted-or-empty case |
| Shorthand.UnionFill | client/src-tauri/src/orchestrator.rs:271-316 | The tool union is unaffected if and only if filling in settles no dispute |
| KeyWindow.TrustedKeySet.Insert | client/src-tauri/src/license_verify.rs:161-168 | Retain, push and drain compute the rolling window, which stays what the reference makes of the insertion history |
| KeyWindow.TrustedKeySet.InsertSpki | client/src-tauri/src/license_verify.rs:138-158 | Bad key material is refused and changes nothing |
| KeyWindow.TrustedKeySet.Get | client/src-tauri/src/license_verify.rs:172-174 | Finds the key of that kid |
| KeyWindow.WindowStep | client/src-tauri/src/license_verify.rs:161-168 | After any history the window holds, in order, the K kids with the latest last insertions, each with its latest key |
| KeyWindow.FoundUntil | client/src-tauri/src/license_verify.rs:161-174 | A key is found until K distinct other kids have been inserted since its own last insertion, and not after |
| KeyWindow.VerifiedIffGenuine | client/src-tauri/src/license_verify.rs:245-405 | A license is accepted if and only if its header, algorithm, signature and claims are all as required, the algorithm being the trusted key's |
| LicenseRefusals.RejectedIffRefusal | client/src-tauri/src/license_verify.rs:245-381 | A token is refused if and only if it fails a check, and the error is that of the first it fails in the order frame, header, key, algorithm, signature, payload, claims |
| KeyWindow.LicenseLifetime | client/src-tauri/src/license_verify.rs:161-293 | A verified license keeps verifying with the same content until K distinct other kids have been inserted, and is then unknown |
| Refresh.RunInv | portal/src/apiClient.ts:77-170 | Over every interleaving the single-flight, fetch-count and token invariants hold |
| Refresh.RefreshIsSingleFlight | portal/src/apiClient.ts:77-170 | At most one refresh is outstanding, each request fetches at most twice, a rotated refresh token is never presented again |
| Refresh.Coalesces | portal/src/apiClient.ts:77-161 | From any state with a refresh in flight, over every interleaving until its cleanup, no further refresh is sent and every request that comes to wait waits for that one |
| Refresh.RetriesOnce | portal/src/apiClient.ts:118-155 | A retry follows only a successful refresh, and a 401 on the retry is final |
| RefreshRetry.RetryCarriesIssued | portal/src/apiClient.ts:118-155 | Where promise reactions run before other events, a retried request is sent with the access token issued by the refresh it waited for |
| RefreshRetry.StoreChanges | portal/src/apiClient.ts:79-161 | The stored tokens change only to the pair a refresh issued, or to none when a request learns that its refresh was refused |
| RefreshRetry.PresentsStored | portal/src/apiClient.ts:79-155 | A request waits for a refresh if and only if its authorized first try meets a 401 with a refresh token stored, and only a refresh it starts presents that token |
| RefreshRetry.RequestEnds | portal/src/apiClient.ts:118-170 | How a request ends: answered in the 200s, expired by a refused refresh, or failed |
| Refresh.ApiClient.EnsureRefresh | portal/src/apiClient.ts:79-114 | Starts a refresh only when none is in flight |
| Refresh.ApiClient.OnResponse | portal/src/apiClient.ts:141-161 | One response's handling is the corresponding protocol step and keeps the invariant |
| Refresh.ApiClient.OnNetworkError | portal/src/apiClient.ts:118-161 | A failed fetch ends the request: the corresponding step, keeping the invariant |
| Refresh.ApiClient.OnRefused | portal/src/apiClient.ts:79-105 | A refused refresh stores nothing: the corresponding step, keeping the invariant |
| Refresh.ApiClient.OnThrew | portal/src/apiClient.ts:79-114 | A refresh that throws stores nothing: the corresponding step, keeping the invariant |
| Refresh.ApiClient.OnRefreshed | portal/src/apiClient.ts:96-103 | A successful refresh replaces both tokens: the corresponding step, keeping the invariant |
| Refresh.ApiClient.OnFinally | portal/src/apiClient.ts:107-114 | The cleanup clears the in-flight variable: the corresponding step, keeping the invariant |
| Refresh.ApiClient.OnResume | portal/src/apiClient.ts:141-153 | A waiting request retries or signs out: the corresponding step, keeping the invariant |
| UnlockCodes.Encode | fulfillment/unlock_codes.py:63-78 | The shift-register loop emits the base-32 digits of the zero-padded big-endian value |
| UnlockCodes.B32 | fulfillment/unlock_codes.py:63-78 | The encoding of n bytes has ceil(8n/5) characters |
| UnlockCodes.B32Value | fulfillment/unlock_codes.py:63-78 | Read as a base-32 number the encoding is the big-endian value with its zero padding |
| UnlockCodes.B32Injective | fulfillment/unlock_codes.py:63-78 | Byte strings of one length with the same encoding are equal |
| UnlockCodes.B32Surjective | fulfillment/unlock_codes.py:63-78 | Every eight symbols encode some five bytes |
| UnlockCodes.Canonicalize | fulfillment/unlock_codes.py:97-108 | The normalizing loop computes the recursive definition |
| UnlockCodes.CanonicalIdempotent | fulfillment/unlock_codes.py:97-108 | Canonicalizing twice changes nothing more |
| UnlockCodes.GroupedReads | fulfillment/unlock_codes.py:90-108 | Grouping for display is undone by canonicalizing |
| UnlockCodes.MintedText | fulfillment/unlock_codes.py:63-119 | A minted code is the prefix, the nonce's eight symbols and the sixteen of the first ten bytes of the keyed hash over the prefixed nonce, in groups between dashes |
| UnlockCodes.MintedVerifies | fulfillment/unlock_codes.py:111-138 | For any keyed hash and five-byte nonce the minted code verifies and gives back its nonce |
| UnlockCodes.VerifiesIffMinted | fulfillment/unlock_codes.py:111-130 | The verifier accepts exactly the typings of minted codes |
| UnlockCodes.RetypingVerifies | fulfillment/unlock_codes.py:97-138 | Verification and nonce are invariant under typings that, upper-cased, differ only in meaningless characters and characters read alike |
| UnlockCodes.LookAlikes | fulfillment/unlock_codes.py:97-108 | ASCII letters that differ in case only are upper-cased alike; O and 0, and I, L and 1 are read alike; separators and U mean nothing |
| Allergen.ContainsWord | eval/allergen.py:71-90 | True if and only if some occurrence, overlapping ones included, has no word character on either side; false for the empty needle |
| Allergen.Scan | eval/allergen.py:93-106 | The nested loops flag each listed allergen once, by its first term that fires |
| Allergen.FlaggedIffFlag | eval/allergen.py:93-110 | An allergen is flagged if and only if it is listed and one of its terms is a word of the text |
| Allergen.FlagsExact | eval/allergen.py:93-106 | The flags are those of the flagged allergens in the list's order, one each, with the allergen's display name and the first of its terms that is a word |
| Allergen.JoiningIsSafe | eval/allergen.py:113-114 | Scanning names joined by newlines flags an allergen if and only if scanning some single name does, for terms without newlines |
| Allergen.ScanIngredients | eval/allergen.py:113-114 | One scan of the joined names flags exactly the allergens that scanning the names one by one would flag, for terms without newlines |
| Allergen.JoiningSafeIff | eval/allergen.py:113-114 | A term is found in every list of joined names exactly when some single name has it, if and only if it has no newline |
| Allergen.NewlineTermStraddles | eval/allergen.py:113-114 | A term with a newline, its own lines taken as the names, is found in their join and in none of them |

## Left out

- Utf8Stream.StreamTokens: the token limit, cancellation and the end-of-text token only end the loop early; the model runs over whichever tokens were decoded.
- Download.DownloadBlob: requires the file to be shorter than 2^64 - 1 bytes, the value that stands for an unknown size; a file removal is taken to succeed.
- DownloadProtocol.RunOnSource: needs servers that serve one content per path and clean ends that are complete; download retry is not shown to make progress, since a full-size file that fails verification is kept and fails again.
- DownloadProtocol.DownloadManager.Reserve: byte counters, error text and progress events of the shared status are not modelled.
- ManifestFixedPoint.CentsPositive: dollars times one hundred is exact here; the rounding of that product in 64-bit floating point is not modelled.
- ManifestValidator.Validate: issues carry their code and location; the human-readable message is not modelled. A location is a list of steps, not its rendered text.
- OrchestratorLaws.MergePermutes: needs distinct ids, as the enabled skills of one agent have; with a repeated id the lookup by id keeps the last listed.
- ToolAccounting.ToolsAccounted: needs each skill to declare a ref at most once, which validation does not enforce, and no dots in ids and refs, which it does.
- MergeView.ViewIff: of manifests that have passed validation; in others the deserializer would take sections other than the cost written as arrays.
- CompositionAgreement.RawAgreesWithCanonical: the skills have distinct ids, as the enabled skills of one agent have.
- Composition.ComposeAgent: the routing table of the last step comes from a module that is not part of this model, so the composed agent has no routing.
- RefreshRetry.RetryCarriesIssued: over runs in which the reactions to a settled refresh come before other events, as in the browser; the other refresh results hold for every interleaving.
- Refresh.RefreshIsSingleFlight: a token counts as rotated when the client has stored its successor; a rotation whose answer is lost leaves the client with the old token. Login and logout during a refresh are excluded.
- UnlockCodes.Canonicalize: upper-casing is any function that treats ASCII text as such; what it makes of other letters is not modelled.
- Allergen.Scan: lower-casing is any function; that it works on either side of a newline alone and makes none, as `str.lower` does, is required where joined names are compared with single ones.
- SanitizerKeeps.SanitizeShows: for text whose tags are not torn and whose labels are settled; on other text a fragment may span lines, and the laws of each stage say what is kept.
- SanitizerTwice.IdempotentWhen: one-way. Neither half of the condition can be dropped, but a text that fails it may still be sanitized in one pass, for example when a torn tag never meets the rest of it.
- ToolCall.FunctionCallRoundTrip: the scanners' 32-bit depth counter is an unbounded integer here.
- The text of the decoding grammar as `build_grammar` assembles it; its language is modelled rule by rule.
- The conversion of number literals to 64-bit integers and floats, beyond being some function of the literal.
- HTTP, Tauri commands and events, threads, the llama.cpp decoding loop and the URL guard: input and output.
- Base64, SPKI decoding, Ed25519, ECDSA, HMAC and SHA-256 internals.
- The parsing of a request's signature and of pinned-key configuration, beyond their results.
- Speed headroom, unit arithmetic and the evaluation reports: floating-point reporting with little to prove.
- The turn loop, the store, the skill manager, device and package verification, deep links, the portal views and the landing pages.
