# Verification of bb

A Dafny model of the algorithms and protocols at the heart of bb, a command line
client and MCP server for Bitbucket Data Center, and proofs of what its
documentation and comments promise of them. `dafny verify dfyconfig.toml` checks
everything.

Each module follows one part of the program. Code that changes state in place is
a class or a method with loops, proved against a specification function; the
lemmas prove what the program is for of those functions.

- **Reading files** (`internal/fileview`). `Xml` is the bounded token stream of a
  document's part and `Documents` the text read out of it. `TextWalk` is the stack
  machine that turns tokens into lines, against a recursive definition over the
  document tree, and `TextLayout` what the lines look like and in which order they
  come; `SheetWalk` is the one that puts a worksheet's rows together, whose lines
  `Sheets` specifies and `SheetLaws` describes. `Windows` cuts a text into windows
  of lines and `Paging` says what a reader is given; `TextDecoding` reads other
  encodings. `Gif`, `Tiff` and `Orientation` are the byte and arithmetic walkers.
- **Confirmations** (`internal/mcp/confirm.go`, `asks.go`). `Confirm` is the
  protocol of sealed, single-use request states, as methods and as a state
  machine over interleaved calls.
- **Governance** (`internal/mcp`). `Tools` names the tools, `Scoping` confines
  calls, `Exposure` decides which tools are served, `ResourceUri` and `Links` name
  resources, and `UriLaws` says what any URI names. `Audit` is the middleware and
  its log, over servers and handlers that keep what they were called with;
  `AuditRuns` is the same for requests at the same time.
- **Editing startup files** (`internal/completionsetup/files.go`). `BlockEdit`
  edits the text, `BlockFile` reads and writes it in its encoding, `SharedFile`
  says what becomes of the whole file, `BlockLaws` says it by the file's lines, and
  `StartupFile` does it on a disk that may fail at every step.
- **Configuration** (`internal/config`). `Hosts` and `HostFile` are the stored
  hosts and the keyring under logins, logouts and alias edits, and `HostFrames`
  what each edit leaves alone; `Doctor` is the diagnosis, against the loader it has
  to agree with, `LoaderLaws` which place wins over which, and `Logouts` what the
  loader still has after a logout.

`Bytes`, `Strings`, `Sequences`, `Splitting`, `Decimal`, `Utf8`, `Utf16` and `Options` hold
what several parts share.

## What the proofs found

Where a promise does not hold of the code on all inputs, a lemma gives the exact
condition under which it does, and another an input where it does not:

- A confirmation can run twice when two calls open its state before the expiry and
  consume it after (`Confirm.OnlyTheFirstRuns`; `Confirm.CrossingRunsTwice`).
- Install and remove give a startup file back only under the conditions of
  `SharedFile.ComesBack`, and a second install leaves it only when the first kept its
  line ending; a lone carriage return at the end of a text makes the newline after it
  read as another (`SharedFile.RemoveRestoresFile`, `SharedFile.SecondInstallLeavesFile`;
  `SharedFile.LoneReturnIsLost`).
- A login that went to plaintext is shadowed by an older keyring entry of the same
  file once the keyring works again (`HostFile.LoginIsFoundAgain`;
  `HostFile.StaleEntryAnswers`).
- After a logout the loader can still have a secret for the host. A file with entries
  of its own leaves an older entry for the host alone, which answers where the
  system's file stores the host too (`Logouts.ResolvesAfterLogout`;
  `Logouts.OldEntryAnswers`).
- A top-level `ca_file` of blanks makes the loader refuse every other CA file, and
  the diagnosis reports nothing (`Doctor.CaFileAgrees`; `Doctor.BlankMandateIsNotReported`).
- Under a required keyring the loader can refuse for plaintext it does not use,
  which the diagnosis does not report (`Doctor.PlaintextAgrees`;
  `Doctor.PlaintextLeftIsNotReported`).
- Tool arguments of JSON `null` under a scope write into a map that is not there,
  before any record is written (`Scoping.OnlyNullPanics`; `Scoping.NullPanics`).
- A partial write leaves a fragment in the audit log that the next record's line
  begins with (`AuditRuns.RunRecordStandsAlone`; `AuditRuns.FragmentSpoilsNextLine`).
- The turned chroma planes of a picture that starts at an odd coordinate and has an
  even length are a sample short (`Orientation.TurningNeedsFit`;
  `Orientation.OddStartLosesSample`); decoders start pictures at zero.

## How parts outside the program are modelled

- Text that Go keeps as bytes is a sequence of bytes; where the program only
  compares or trims it, a string of characters. Unicode's lower case and simple
  case folding are arbitrary functions of a character that lower the letters of ASCII
  and do nothing more when done again.
- The clock, the system calls of a disk that may fail, the keyring's availability,
  and whether a file can be saved are parameters. The clock does not go back.
- The digest of an input and of a configuration path is the thing itself, and a
  signature can only be made with the key: hashing is taken as injective, MACs as
  unforgeable.
- URLs are records of scheme, host, port and path; a URL that does not parse is not
  part of this model.
- XML, JSON, YAML and image decoders and encoders are not modelled: documents are
  token sequences, arguments are decoded values, and a record's JSON is any text
  without a newline.
- Bitbucket, the MCP SDK and tool handlers answer anything; what they are called with
  is kept.
- What a cell of a worksheet shows is any function of its kind, its style, its value
  and its inline text: shared strings, number formats and dates go into it.

## Model

| member | source | states |
|---|---|---|
| `TextWalk.RunIsMeaning` | internal/fileview/office.go:372-532 | The stack machine, run over the tokens of any tree of elements and character data, does what the recursive definition of the tree says: text of the kept runs goes to the innermost paragraph around it and is dropped where there is none, a text box's paragraphs follow the paragraph it is anchored in, a nested row flattens into its cell, skipped elements do nothing, and all state but the text flag is as before the tree. |
| `TextWalk.WalkReadsTheLines` | internal/fileview/office.go:324-332 | A whole part's walk emits exactly the lines the recursive definition gives, in order, up to the document's byte budget. |
| `TextWalk.TooDeepIsRefused` | internal/fileview/office.go:183-196 | A tree is refused for its nesting exactly when it is deeper than the limit; within it, the walk ends at the depth it began. |
| `TextWalk.LinesKeepTheText` | internal/fileview/office.go:460-532 | Conservation: each byte other than tab, newline and space occurs in the lines as often as in the text the recursive definition keeps; none of them is dropped or emitted twice. |
| `TextLayout.LinesAreInOrder` | internal/fileview/office.go:372-532 | Order: in a document of paragraphs and tables with nothing anchored in a paragraph, the lines are the kept text in the document's order, byte for byte apart from tabs, newlines and spaces. |
| `TextLayout.ParagraphIsItsText` | internal/fileview/office.go:460-481 | A paragraph is one line, its own text with its runs' tabs, breaks and hyphens in order, followed by the lines of what is anchored in it. |
| `TextLayout.CellIsItsLines` | internal/fileview/office.go:501-519 | A cell's text is the lines delivered into it, in order, each with tabs and newlines as spaces and every other byte in place, one space between two and none before the first that is not empty. |
| `TextLayout.CellsAreFlat` | internal/fileview/office.go:501-519 | Whatever content leaves in a row has no tab and no newline in its cells. |
| `TextLayout.RowIsItsCells` | internal/fileview/office.go:471-496 | A row is one line, which splits at its tabs into exactly its cells. |
| `TextLayout.SkippedLeavesNothing` | internal/fileview/office.go:399-407 | Fallback content, field codes and deleted text leave no trace, whatever is in them. |
| `TextLayout.RunIsALine` | internal/fileview/office.go:408-457 | The text of a run in a paragraph is a line, whatever it is. |
| `TextLayout.EndIsTold` | internal/fileview/office.go:372-397 | A part that is nested too deep, or whose reader fails, is an error exactly when the document was not full before; a full one ends the walk without. |
| `TextLayout.EndInSkipIsTold` | internal/fileview/office.go:200-215 | A part that ends inside an element that is skipped is an error, however it ends. |
| `TextWalk.FramesAreTheOpenElements` | internal/fileview/office.go:338-371 | At every moment of a walk the frame stack is the open paragraphs, rows and cells, or the walk is inside an element it skips. |
| `Documents.OfficeDocument.Line` | internal/fileview/office.go:135-148 | A line is taken whole if it fits the budget with its newline; the first that does not makes the document full for good. |
| `Xml.XmlStream.Token` | internal/fileview/office.go:183-196 | The next token, with the depth kept, or the refusal of one nested too deep. |
| `Xml.XmlStream.Skip` | internal/fileview/office.go:200-215 | Skipping reads to the end of the element that was just started and no further, or fails at the first tag too deep or at the end of the tokens inside it. |
| `TextWalk.TextWalker.Write` | internal/fileview/office.go:460-468 | Text goes to the innermost open paragraph, and nowhere when none is open, as the effect on the stack says. |
| `TextWalk.TextWalker.Deliver` | internal/fileview/office.go:501-519 | A finished line goes behind the paragraph that holds it, into the cell that holds it, or out. |
| `TextWalk.TextWalker.CloseFrame` | internal/fileview/office.go:471-496 | Closing a frame hands its text on: a paragraph before what followed it, a row joined by tabs, a cell to its row or, without one, as a line. |
| `TextWalk.TextWalker.StartOf` | internal/fileview/office.go:399-435 | Starting an element changes the walker as the machine's step for it does. |
| `TextWalk.TextWalker.EndOf` | internal/fileview/office.go:437-457 | Ending an element changes the walker as the machine's step for it does. |
| `TextWalk.TextWalker.Walk` | internal/fileview/office.go:372-397 | Over any tokens and any fault of the reader, the walk leaves in the document what the machine's run emits, and ends with the error that run meets. |
| `Windows.LinesAreTheText` | internal/fileview/text.go:303-328 | The lines of a text, each with its newline, concatenate to the text. |
| `Windows.CountLinesCounts` | internal/fileview/text.go:303-314 | Counting newlines, and the last line without one, counts the lines. |
| `Windows.LineOffset` | internal/fileview/text.go:317-328 | The offset of a line is where the lines before it end. |
| `Windows.CutLine` | internal/fileview/text.go:271-275 | An over-long line is cut at the last place before the limit where a character begins. |
| `Windows.TakeLines` | internal/fileview/text.go:247-290 | The loop takes lines for as long as they are asked for and fit, and stops at the first that does not. |
| `Windows.FillWindow` | internal/fileview/text.go:247-298 | The window the loop leaves, with an over-long first line cut to fit, is the one the specification takes greedily. |
| `Windows.CutWindow` | internal/fileview/text.go:236-299 | The window, or the error for a start past the end, for every text, start and count. |
| `Windows.TakingIsGreedy` | internal/fileview/text.go:255-289 | A window stops at its count, at the end, or at the first line that no longer fits. |
| `Windows.WindowIsBounded` | internal/fileview/text.go:205-299 | A window of a text with lines holds at least one line, at most the lines asked for, and at most 32 KiB of view. |
| `Windows.PagesTile` | internal/fileview/text.go:236-299 | Following the next line from any line ends, and the windows cover the lines from there to the last without gap or overlap, each line once. |
| `Windows.PagesAreTheText` | internal/fileview/text.go:236-299 | The contents of all windows, from line 1 on, are the text if and only if no line is too long for a window of its own. |
| `Paging.CutExactly` | internal/fileview/text.go:236-299 | For every text, start and count: an error exactly when the start is past the last line and not line 1 of an empty text; otherwise a window that starts at the line asked for and holds the text's own lines, numbered, up to the count asked for (500 for none, at most 2000) unless the text ends or the next one does not fit 32 KiB; or, of a line longer than that, a beginning. |
| `Paging.ReadingIsTheText` | internal/fileview/text.go:236-299 | Asking for `next` for as long as there is one gives every line from the start to the last once and in order, and the text from there on exactly, if and only if none of these lines is longer than a window. |
| `Paging.PrefixNumbers` | internal/fileview/text.go:261 | A line's number stands in at least six columns, padded with spaces, before a tab. |
| `Paging.ShownIsBody` | internal/fileview/text.go:260 | A line is shown without its line ending and otherwise whole. |
| `Windows.CutKeepsCharacters` | internal/fileview/text.go:271-281 | A cut line of valid UTF-8 (section 3 of RFC 3629) is cut on a character boundary, and leaves at most 3 bytes of the budget unused. |
| `Windows.LinesAreValid` | internal/fileview/text.go:236-299 | The lines of valid UTF-8 are valid UTF-8. |
| `TextDecoding.DecodeUtf16` | internal/fileview/text.go:48-84 | UTF-16 after a byte order mark is read as UTF-8; an odd length, no mark, or a control character no text uses is refused. |
| `TextDecoding.Utf16TextIsRead` | internal/fileview/text.go:48-84 | Every text written as UTF-16 in either order is read as itself in UTF-8, or refused for its control characters. |
| `TextDecoding.DecodeUnicode` | internal/fileview/text.go:25-31 | Valid UTF-8 without a NUL is read as it is, and what is read is always valid UTF-8. |
| `TextDecoding.UnicodeIsRead` | internal/fileview/text.go:25-84 | Every text without a NUL is read as itself from UTF-8, and every text of allowed characters from marked UTF-16 of either order. |
| `TextDecoding.DecodeWindows1252` | internal/fileview/text.go:92-121 | Each byte is read as its Windows-1252 character; a byte that could not be text refuses the whole. |
| `TextDecoding.ReadingKeepsBytes` | internal/fileview/text.go:92-141 | Windows-1252 reading is one character a byte and loses nothing: different contents read differently. |
| `TextDecoding.MostlyLatin1` | internal/fileview/text.go:92-141 | Outside 0x80 to 0x9F a byte is the character of its number, but for controls no text uses; five bytes are undefined. |
| `TextDecoding.UnmarkedIsRefused` | internal/fileview/text.go:48-62 | Without a byte order mark, or with an odd number of bytes, nothing is read as UTF-16. |
| `TextDecoding.ControlsAreRefused` | internal/fileview/text.go:62-84 | UTF-16 is refused for a control character no text uses, and for no other. |
| `TextDecoding.WindowsCharacters` | internal/fileview/text.go:134-141 | The euro sign, the dots, the quotation marks and the dashes are where Windows-1252 has them. |
| `Utf8.WidthsAreStandard` | internal/fileview/text.go:76-84 | Characters of each width are encoded as section 3 of RFC 3629 says. |
| `ResourceUri.EscapeComponent` | internal/mcp/resources.go:238-254 | Every byte but the unreserved ones is percent-encoded in capitals (sections 2.1 and 2.3 of RFC 3986). |
| `ResourceUri.UnescapeEscaped` | internal/mcp/resources.go:238-254 | Unescaping, as a path or as a query, gives back what was escaped. |
| `ResourceUri.ComponentOfEscape` | internal/mcp/resources.go:334-341 | Escaped text of any characters is read back as those characters. |
| `ResourceUri.DecodePath` | internal/mcp/resources.go:305-314 | The path of a file is decoded segment by segment, or refused. |
| `ResourceUri.ParseResource` | internal/mcp/resources.go:263-330 | Reading a URI: its kind and parts, or nothing, on all byte strings. |
| `ResourceUri.ParseReadsUri` | internal/mcp/resources.go:205-330 | Reading the URI built for a resource gives the resource in normal form, for every kind and every field; nothing is read only for a file without a path and for no kind. |
| `ResourceUri.NormalIsNormal` | internal/mcp/resources.go:205-234 | A normal form is its own. |
| `ResourceUri.UrisAreDistinct` | internal/mcp/resources.go:205-330 | Resources with different normal forms have different URIs. |
| `UriLaws.ReadsExactly` | internal/mcp/resources.go:263-330 | What any URI reads as, built by the server or not: exactly what its segments name, and with a query exactly a file at what the query names. |
| `UriLaws.NamedExactly` | internal/mcp/resources.go:269-316 | The segments of a path name a resource exactly when they are as many as its kind has, with its words between segments that spell its project, repository and identifier, or the parts of its path. |
| `UriLaws.UnescapedExactly` | internal/mcp/resources.go:334-341 | A text is decoded to exactly the bytes it spells, by themselves or by escapes, whose digits may be small or capital. |
| `UriLaws.EscapesExactly` | internal/mcp/resources.go:238-254 | Letters, digits and four marks stay, and any other byte is a percent sign and two capital digits (section 2.3 of RFC 3986). |
| `UriLaws.QueryExactly` | internal/mcp/resources.go:318-327 | A query is read exactly when it gives `at` one value and nothing else anything. |
| `UriLaws.OnlyResources` | internal/mcp/resources.go:263-267 | Only a URI with the server's prefix and no fragment names anything. |
| `UriLaws.WordsAreWords` | internal/mcp/resources.go:195-234 | The prefix and the words between segments, letter by letter. |
| `Links.LinkResource` | internal/mcp/resources.go:661-710 | A link is appended, and nothing else of the result changed, exactly when the tool has a resource, the call succeeded and the link reads. |
| `Links.LinkForReads` | internal/mcp/resources.go:694-710 | A resource is linked exactly when it has a normal form that validates, and the link reads as that form. |
| `Links.LinksAreGood` | internal/mcp/resources.go:661-710 | Under every scope that was read, a link beside a result of a dispatched call parses, validates, is inside the scope, and is of a kind the called tool serves. |
| `Links.LinkNamesTheCall` | internal/mcp/resources.go:661-710 | A call that succeeded is linked to the resource its arguments name, in normal form, exactly when that could be one; tools without a resource link nothing. |
| `Links.ValidatedIsHarmless` | internal/mcp/resources.go:356-390 | What is linked has a project and a repository that stay segments of a path, and an identifier of its kind. |
| `Links.ValidatesExactly` | internal/mcp/resources.go:359-390 | A repository's resource may be linked exactly by an identifier or a path of its kind. |
| `Links.StaysExactly` | internal/openapi/repository_ref.go:49-60 | A value stays one segment of a path exactly when, trimmed, it is no dot segment and has nothing that ends one. |
| `Links.KeepResources` | internal/mcp/middleware_resources.go:92-103 | Under a scope the resource list is filtered by it. |
| `Links.ListIsInScope` | internal/mcp/middleware_resources.go:92-103 | What is left of the list is exactly what reads as a resource inside the scope. |
| `Links.ListsInScope` | internal/mcp/middleware_resources.go:92-103 | A resource is listed under a scope exactly when its URI reads as one of the scope's project and repository. |
| `Strings.EqualButForCapitals` | internal/mcp/middleware_resources.go:204-213 | Of texts in ASCII, as project keys are, the comparison on which confinement rests tells all apart but those that differ in capitals alone. |
| `Links.ListKeepsOrder` | internal/mcp/middleware_resources.go:92-103 | What is left of the list stays in its order. |
| `Confirm.ConfirmationSeal.Seal` | internal/mcp/confirm.go:326-344 | A state is sealed for the tool, the input, the pin and an expiry ten minutes on. |
| `Confirm.ConfirmationSeal.Open` | internal/mcp/confirm.go:352-372 | A state opens only under the process's key, for the tool and input it was sealed for, and while not answered; it says whether it has expired. |
| `Confirm.ConfirmationSeal.Consume` | internal/mcp/confirm.go:382-404 | Consuming forgets answered states that have expired, and succeeds exactly when this one is not among those left. |
| `Confirm.ConfirmationSeal.Confirmed` | internal/mcp/confirm.go:107-191 | A call runs exactly when the client can ask, the box was ticked in time, and the state opens and is consumed; every other answer ends it in its own way. |
| `Confirm.ConfirmationSeal.Conclude` | internal/mcp/confirm.go:147-191 | A consumed answer ends the call as the person chose: the tool's handler is called once, with the input held to the confirmed version, or not at all, and what is recorded follows. |
| `Confirm.ConfirmationSeal.Heed` | internal/mcp/confirm.go:168-191 | Once its state is consumed, an answer that accepts in time calls the tool's handler once with the held input, unless the pin cannot be read; every other answer calls nothing. |
| `Confirm.ConfirmationSeal.Ask` | internal/mcp/confirm.go:194-209 | A question is put unless the pull request has moved past the version the call names, and pins the version shown. |
| `Confirm.HoldVersion` | internal/mcp/asks.go:99-110 | The call is held to the version in the pin; one that names another is refused. |
| `Confirm.RunIsSound` | internal/mcp/confirm.go:107-191 | Over every interleaving of calls with a clock that does not go back: states are sealed once, opened calls carry states that were issued, and answered states are remembered until they expire. |
| `Confirm.OnlyTheFirstRuns` | internal/mcp/confirm.go:382-404 | Of two consumptions of one state, the second ran only if it was opened before the expiry and consumed after it. |
| `Confirm.RunsOnlyWhatWasAccepted` | internal/mcp/confirm.go:107-191 | The handler runs only for a state that was issued, opened before its expiry and accepted, with the tool and input it was issued for. |
| `Confirm.ConsumingRunsExactly` | internal/mcp/confirm.go:141-191 | A call that consumes runs exactly when it was accepted in time and the state was not consumed before, or was forgotten since. |
| `Confirm.QuestionIsPut` | internal/mcp/confirm.go:194-209 | A question is put whenever the version a call names is the pull request's or the tool is not held to one; it is pinned to the version shown and expires in ten minutes. |
| `Confirm.RefusalsAre` | internal/mcp/confirm.go:168-183 | An answer that does not run the tool is a cancellation, a refusal, or an acceptance that came too late. |
| `Confirm.OpensExactly` | internal/mcp/confirm.go:352-404 | In every run a state that was given out is opened by a call of its tool and input exactly when the call is new and the state was never consumed, or has expired and been swept out since it was. |
| `Confirm.AnsweredExactly` | internal/mcp/confirm.go:382-404 | In every run the nonces remembered are exactly those of states that were consumed and not swept out since. |
| `Confirm.AcceptedInTimeRuns` | internal/mcp/confirm.go:107-191 | Whoever accepts a question before it expires has the tool run, with the input asked about and the version shown, whatever other calls do meanwhile, unless they consume the same state. |
| `Confirm.ForgedIsRefused` | internal/mcp/confirm.go:352-372 | A state with another key's signature, or changed since it was signed, opens for no call. |
| `Confirm.CrossingRunsTwice` | internal/mcp/confirm.go:382-404 | The exception is real: two calls that open one state before its expiry and consume it after both run. |
| `Confirm.MergesTheVersionShown` | internal/mcp/asks.go:31-110 | Whenever a merge or auto-merge runs, the version it is held to is the one the accepted confirmation showed, whether or not the call named one. |
| `Decimal.DigitsAreInOrder` | internal/mcp/asks.go:50 | A version is pinned with its most significant digit first, and a minus sign before a negative one. |
| `Confirm.AskedInProcess` | internal/mcp/confirm.go:130-144 | A call of the seal that carries no answer is the protocol's question: the state it is answered with is the one the process issues, for the version shown and under a nonce no issued state had; a pull request that has moved, or a state that does not open, issues nothing. |
| `Confirm.ConfirmedInProcess` | internal/mcp/confirm.go:107-191 | A call of the seal that carries an answer is a step of the protocol that opens its state and, after whatever other calls did in between, one that consumes it: with the same outcome, the same input run and the same nonces remembered. |
| `Hosts.NormalizeAliases` | internal/config/config.go:2591-2611 | Aliases are normal and none twice, or refused when one is invalid. |
| `Hosts.MergeAliases` | internal/config/config.go:2720-2736 | The additions that are not there yet follow what is there. |
| `Hosts.EnsureAliasOwnership` | internal/config/config.go:2621-2636 | Whether no other host has any of the aliases, in whatever order the map is read. |
| `Hosts.RemoveFrom` | internal/config/config.go:1093-1101 | Every occurrence of an alias is taken out, the rest kept in order, and it is said whether there was one. |
| `Hosts.Machine.Set` | internal/config/config.go:2197-2240 | A working keyring keeps the secret; one that does not work keeps nothing and says so. |
| `Hosts.Machine.Delete` | internal/config/config.go:2197-2240 | A working keyring forgets the one entry. |
| `HostFile.ConfigFile.SaveLogin` | internal/config/config.go:840-986 | A login is refused for the first thing wrong and then changes nothing, or stores the profile and the secret as specified; a file that cannot be written keeps what it held. |
| `HostFile.ConfigFile.Keep` | internal/config/config.go:949-968 | The secret goes to the keyring and the other kind goes out of it, or the login is refused or allowed plaintext. |
| `HostFile.ConfigFile.LogOut` | internal/config/config.go:1144-1187 | The host, its plaintext and its entries are gone; entries for the host alone go only from a file with none of its own; the default moves to some host that is left. |
| `HostFile.ConfigFile.SetHostAliases` | internal/config/config.go:988-1021 | A stored host's aliases are replaced, unless one is invalid or another host's. |
| `HostFile.ConfigFile.AddHostAliases` | internal/config/config.go:1023-1069 | Aliases are added to those a stored host has, unless one is invalid or another host's. |
| `HostFile.ConfigFile.RemoveHostAlias` | internal/config/config.go:1071-1113 | An alias a stored host has is taken from it. |
| `HostFile.ConfigFile.SetDefaultHost` | internal/config/config.go:1221-1244 | A stored host becomes the default. |
| `HostFile.StepsKeepValid` | internal/config/config.go:840-1244 | Each edit keeps: no alias of two hosts, profiles filed under the key of their URL, plaintext only for stored hosts, and a stored default as long as there is a host. |
| `HostFile.RunsKeepValid` | internal/config/config.go:840-1244 | The same after every sequence of edits from an empty file. |
| `HostFile.LoginKeepsAliases` | internal/config/config.go:908-917 | Logging in again keeps every alias of the host and adds exactly those given. |
| `HostFrames.LoginTouchesOneHost` | internal/config/config.go:970-980 | A login stores its own host and leaves every other one its profile and its plaintext; the default changes exactly when asked for or when there was none. |
| `HostFrames.LoginKeepsOtherHosts` | internal/config/config.go:937-980 | Every other host of the file has the credential after a login that it had before. |
| `HostFrames.LoginIsStoredExactly` | internal/config/config.go:842-975 | When a login is stored: exactly for a permitted host, valid aliases no other host has, one whole credential, and a secret that the keyring takes or that may be kept in plaintext with nothing requiring the keyring. |
| `HostFrames.AliasEditTouchesAliases` | internal/config/config.go:984-1115 | Editing a host's aliases changes those alone, to exactly those set, those had and added, or those had without the one removed. |
| `HostFrames.AliasEditIsRefused` | internal/config/config.go:984-1115 | An edit of aliases is refused for no host, an invalid alias, a host not stored, a taken alias or the disk, in this order, and otherwise made. |
| `HostFrames.AdditionsFollow` | internal/config/config.go:2720-2736 | Aliases that are added follow those there are, in their order. |
| `HostFrames.RestStays` | internal/config/config.go:1082-1115 | What is left without an alias stays in its order. |
| `HostFrames.OthersStay` | internal/config/config.go:1144-1215 | Choosing a default changes the default alone; a logout leaves every other host as it is. |
| `HostFile.StoredAsKept` | internal/config/config.go:2613-2619 | Aliases as they are kept are read back unchanged. |
| `HostFile.ResolveStoredHostAlias` | internal/config/config.go:2638-2653 | An alias leads to a host that has it, or to none when none has. |
| `HostFile.MatchStoredHost` | internal/config/config.go:2078-2105 | A host is matched by its key, by an alias, or as its http self for https, and otherwise not at all. |
| `HostFile.MatchIgnoresOrder` | internal/config/config.go:2638-2653 | In a file that edits left, the match does not depend on the order of the map. |
| `HostFile.AliasFindsItsHost` | internal/config/config.go:2078-2105 | An alias finds the host it was given to, unless another host is stored under that very address. |
| `HostFrames.FoundOverTls` | internal/config/config.go:2078-2105 | A host stored over http is found over https when the https address is neither stored nor an alias, and one stored over https never over http. |
| `HostFrames.SameHost` | internal/config/config.go:2655-2662 | Two URLs are of one host when scheme, name and port are, whatever their case and path. |
| `HostFrames.AliasNames` | internal/config/config.go:2548-2589 | A remote is an alias by its host in lower case and its port, or the port its scheme has. |
| `HostFile.LoginIsFoundAgain` | internal/config/config.go:2129-2175 | After a login the host resolves to exactly the credential given, flagged insecure exactly when it went to plaintext, whatever entries for the host alone exist: if and only if the keyring can be read as it could be written, or, written in plaintext, holds nothing that answers for the host. |
| `HostFile.StaleEntryAnswers` | internal/config/config.go:2129-2175 | An input where it is not: a token in the keyring from before answers for the one in plaintext once the keyring is back. |
| `HostFile.LoginLeavesOtherFiles` | internal/config/config.go:3083-3099 | A login under one file changes nothing another file reads from the keyring. |
| `HostFile.LogoutLeavesOtherFiles` | internal/config/config.go:1160-1175 | A logout changes what another file reads exactly when both only share an entry for the host alone. |
| `HostFile.LogoutForgets` | internal/config/config.go:1160-1174 | After a logout the keyring has no entry of the file's own for the host, and has the entries for the host alone exactly when the file had entries of its own: what a lookup would return, if a profile that asks for it is still found. |
| `HostFile.LogoutTakes` | internal/config/config.go:1160-1174 | A logout deletes the file's own entries for the host, from a file with none those for the host alone, and no other entry of the keyring. |
| `Logouts.ResolvesAfterLogout` | internal/config/config.go:1144-1187 | After a logout the loader has a secret from a file for an address if and only if another host of the same file answers for the address with one, or, where neither the file nor the workspace has a profile for it, the system's file does with one that the logout does not delete. |
| `Logouts.OtherHostsStay` | internal/config/config.go:1144-1187 | A logout leaves every other host of the file the credential it had. |
| `Logouts.OldEntryAnswers` | internal/config/config.go:2129-2150 | A world where the loader has a secret for the host after a logout: the system's file stores the host too, and the token for the host alone takes the place of the file's own. |
| `HostFile.OwnEntriesStay` | internal/config/config.go:2969-2980 | A file with entries of its own resolves to them through any logins and logouts under other files. |
| `Doctor.ResolveSetting` | internal/config/doctor.go:550-568 | The first eligible candidate wins, and every other one is reported as shadowed, in order. |
| `Strings.TrimTakesSpaces` | internal/config/config.go:598-602 | Trimming, on which every setting rests, takes exactly the spaces at the ends. |
| `LoaderLaws.ShadowedInOrder` | internal/config/doctor.go:550-568 | Every candidate but the winner is shown as shadowed, in the order they were listed. |
| `Doctor.PutFlagOver` | internal/config/doctor.go:628-637 | Once the flag was passed only the flag can win, even when it sets nothing, and otherwise what wins of the variable does; every place that sets a value stays listed, in order. |
| `Doctor.FlaggedLeads` | internal/config/doctor.go:639-646 | The value that wins of a text flag and its variable is the one the loader takes, and none wins exactly when the loader takes none. |
| `Doctor.PutMandateOver` | internal/config/doctor.go:651-663 | A policy that says true decides what wins whatever the variable says, any other only when the variable sets nothing; every place that sets a value stays listed once. |
| `LoaderLaws.MandatesAreListed` | internal/config/doctor.go:651-663 | A policy that says true is listed before the variable, and the policies behind it after the variable; any other after it. |
| `Doctor.MandateLeads` | internal/config/doctor.go:651-663 | Which candidate wins once policy and variable are put in order. |
| `Doctor.FirstCandidateIsEffective` | internal/config/doctor.go:514-525 | For every switch and text of policy the first candidate the diagnosis lists is the value the loader's merge has, up to surrounding spaces, and it lists none exactly when the merge has none. |
| `Doctor.CaFileAgrees` | internal/config/doctor.go:912-926 | The diagnosis reports a CA file problem if and only if the loader refuses and the mandate is not blank. |
| `Doctor.BlankMandateIsNotReported` | internal/config/doctor.go:912-926 | An input where it is not: a mandate of one space and another file passed as a flag. |
| `Doctor.RequireKeyringAgrees` | internal/config/doctor.go:1199-1213 | The diagnosis shows the requirement the loader applies, and a problem exactly where the loader fails. |
| `Doctor.HostAgrees` | internal/config/doctor.go:702-741 | The diagnosis shows the host the loader goes to. |
| `Doctor.ProfileAgrees` | internal/config/doctor.go:816-844 | The profile the diagnosis finds, tier for tier, is the one the loader adopts from, with the same secrets. |
| `Doctor.UsernameAgrees` | internal/config/doctor.go:848-910 | The user name shown is the loader's; exactly a stored name that is blank without being empty is not. |
| `Doctor.TokenAgrees` | internal/config/doctor.go:882-889 | What is at the place the diagnosis names for the token is the token the loader uses. |
| `Doctor.PasswordAgrees` | internal/config/doctor.go:891-894 | What is at the place the diagnosis names for the password is the password the loader uses. |
| `Doctor.ClientFilesAgree` | internal/config/doctor.go:951-975 | The client certificate and key shown are those the loader resolves, but exactly for a stored path that is blank without being empty. |
| `Doctor.PlaintextAgrees` | internal/config/doctor.go:901-907 | The loader refuses plaintext under a required keyring where the diagnosis says so, and without its saying so only when it takes a secret from the keyring beside plaintext it does not take. |
| `Doctor.PlaintextLeftIsNotReported` | internal/config/doctor.go:901-907 | An input where it refuses without the diagnosis saying so: a token in the keyring, a plaintext password left, and a password passed as a flag. |
| `LoaderLaws.HostIsChosen` | internal/config/config.go:604-621 | A flag's host wins over the environment's, that over the stored file's default, and that over the system file's. |
| `LoaderLaws.UnreadFileIsIgnored` | internal/config/config.go:553-562 | A stored file that is not to be read chooses no host and gives no profile. |
| `LoaderLaws.CredentialIsChosen` | internal/config/config.go:649-651 | A token, user name or password given for one invocation wins over the environment's, and that over a file's; a user named by flags is not given the variable's token. |
| `LoaderLaws.ClientFilesAreChosen` | internal/config/config.go:652-655 | The client's certificate and key come from the flag once it is passed, even empty, or the variable, or the file; a plaintext secret in use is told. |
| `LoaderLaws.ProfileComesFrom` | internal/config/config.go:668-712 | A profile comes from the stored file, or else the workspace's, or else the system's; the workspace's gives a user name and nothing that acts as the user. |
| `LoaderLaws.KeyringBeforePlaintext` | internal/config/config.go:2142-2173 | The keyring wins over plaintext, secret by secret; blank plaintext is none, and taking any is told. |
| `LoaderLaws.OwnEntriesFirst` | internal/config/config.go:3083-3099 | A file's own entries win over those for the host alone, and these over those of the key it is filed under. |
| `LoaderLaws.EntryIsRead` | internal/config/config.go:3103-3110 | A keyring entry is read as it was written, and a blank one as none. |
| `LoaderLaws.PolicySwitch` | internal/config/doctor.go:514-525 | A policy switch is the registry's, or else the policy block's, or else the policies block's, or else the top level's. |
| `LoaderLaws.PolicyText` | internal/config/config.go:1489-1530 | A policy text is replaced by a stronger place's, unless that is blank. |
| `LoaderLaws.KeyringIsRequired` | internal/config/config.go:2276-2295 | Policy that requires the keyring cannot be switched off; otherwise the variable decides, and is refused when it is neither true nor false. |
| `LoaderLaws.MandatedCaFile` | internal/config/config.go:1653-1690 | Under a mandated CA file exactly another one is refused. |
| `BlockEdit.FindMarkerLine` | internal/completionsetup/files.go:338-357 | The first line that is exactly the marker, although the search jumps over each occurrence. |
| `BlockEdit.RemoveUndoesInstall` | internal/completionsetup/files.go:217-308 | On every text without a begin-marker line, removing after installing gives back the text as written out, which is the text itself if and only if it was empty or ended in its own line ending. |
| `BlockEdit.SecondInstallChangesNothing` | internal/completionsetup/files.go:217-246 | A second install finds the block unchanged, if and only if a lone carriage return at the end did not meet the first one's newline. |
| `BlockEdit.ReplaceTouchesTheBlockAlone` | internal/completionsetup/files.go:229-240 | Replacing an outdated block leaves every byte before and after it, is found again in its place, installs no second time, and is removed as the old one would have been. |
| `BlockEdit.FindsBlock` | internal/completionsetup/files.go:314-334 | A block is found from its begin marker to past its line ending wherever it stands. |
| `BlockLaws.BlockIsHere` | internal/completionsetup/files.go:314-356 | A block is found exactly from the first line that is the begin marker to just past the line ending of the first line after it that is the end marker. |
| `BlockLaws.BlockIsNot` | internal/completionsetup/files.go:314-356 | None is found exactly when no line is the begin marker, and a lost end exactly when no line from the first such on is the end marker. |
| `BlockLaws.LostEndIsLeft` | internal/completionsetup/files.go:223-226 | A file whose block has lost its end marker is left byte for byte by installing and by removing, and reported as a conflict. |
| `BlockLaws.InstallSays` | internal/completionsetup/files.go:217-246 | What an install says, by what stands in the file: added, updated or the same, or a conflict; and what it writes. |
| `BlockLaws.RemoveSays` | internal/completionsetup/files.go:248-289 | What a removal says, by what stands in the file, and exactly when it takes the file away. |
| `BlockLaws.BlankIs` | internal/completionsetup/files.go:276-280 | A file is blank when its text is spaces alone, and not when it is not UTF-8. |
| `BlockLaws.InstallsBehind` | internal/completionsetup/files.go:299-308 | Where there is no block it is added to the end, behind exactly one blank line unless the text is empty. |
| `BlockLaws.InstallsOver` | internal/completionsetup/files.go:231-238 | Where there is one it becomes the shell's, with all around it as it was, and is left alone when it is that. |
| `BlockLaws.RemovesBlock` | internal/completionsetup/files.go:264-269 | Removing takes out the block and the line ending of a blank line before it, and nothing else. |
| `BlockLaws.BlockIsItsLines` | internal/completionsetup/files.go:187-215 | The lines of a block are its begin marker, its own lines and its end marker. |
| `BlockLaws.FileIsReadAs` | internal/completionsetup/files.go:391-442 | A file is UTF-16 in the order of its byte order mark, or read byte by byte after that of UTF-8 or none. |
| `BlockFile.BundledAreSound` | internal/completionsetup/files.go:187-215 | The blocks for both shells are ASCII lines of which none but the last is the end marker. |
| `BlockFile.WriteReads` | internal/completionsetup/files.go:391-462 | Writing back what was read gives the same bytes, if and only if the file is not UTF-16 with a surrogate outside a pair. |
| `BlockFile.ReadWrites` | internal/completionsetup/files.go:391-462 | A text that was written is read back in the encoding it was written in, if and only if it was not written unmarked beginning with the bytes of a byte order mark. |
| `Utf16.DecodeEncodes` | internal/completionsetup/files.go:431-456 | Every text comes back from UTF-16 (section 2 of RFC 2781). |
| `Utf16.EncodeDecodes` | internal/completionsetup/files.go:431-456 | Units come back if and only if every surrogate is in a pair. |
| `Utf16.ReadUnits` | internal/completionsetup/files.go:436-439 | Bytes are read as units in either order. |
| `Utf16.WriteUnits` | internal/completionsetup/files.go:448-451 | Units are written as bytes in either order. |
| `SharedFile.RemoveRestoresFile` | internal/completionsetup/files.go:217-290 | A file without a block comes back byte for byte if and only if its text is empty or ends in its own line ending, it is well-formed in its encoding, and it is not a blank regular PowerShell profile; one that was not there is gone again for PowerShell alone. |
| `SharedFile.SecondInstallLeavesFile` | internal/completionsetup/files.go:217-246 | A second install leaves the whole file, if and only if the first kept the line ending the file shows. |
| `SharedFile.LoneReturnIsLost` | internal/completionsetup/files.go:217-290 | An input where neither holds, for both shells: two lines, the last ended by a carriage return alone. |
| `StartupFile.DiskFile.Rewrite` | internal/completionsetup/files.go:504-540 | After any partial write or failed truncation: the new content on success, the old one when putting back works, and never a byte of the old lost by a change that only adds. |
| `StartupFile.OutcomeIs` | internal/completionsetup/files.go:504-540 | How a change ends, by what each system call does: one that only adds needs room for what it adds alone. |
| `StartupFile.WriteCovers` | internal/completionsetup/files.go:516 | A write replaces the bytes it covers, adds those beyond the end, and leaves all others. |
| `StartupFile.DiskFile.Restore` | internal/completionsetup/files.go:519-526 | What was there is put back, or it is said that it was not. |
| `StartupFile.DiskFile.Create` | internal/completionsetup/files.go:467-491 | A new file has the whole content, or is taken away again. |
| `StartupFile.DiskFile.InstallBlock` | internal/completionsetup/files.go:217-246 | Installing does all of what is specified of the file, or fails and leaves it as it was unless putting back failed too; a first install loses nothing even then. |
| `StartupFile.DiskFile.RemoveBlock` | internal/completionsetup/files.go:248-290 | Removing does all of what is specified of the file, or fails and leaves it as it was unless putting back failed too. |
| `Gif.SkipSubBlocks` | internal/fileview/image.go:395-406 | Stepping over sub-blocks ends past their zero length or past the end, never before the start. |
| `Gif.GifFrames` | internal/fileview/image.go:356-382 | On all bytes the count ends and reads only inside them, and is the number the walk over blocks gives. |
| `Gif.FramesAreImages` | internal/fileview/image.go:356-406 | For every header, color table and list of extension and image blocks up to a trailer (sections 15, 18, 20 and 22 of GIF89a), the count is the number of image blocks. |
| `Gif.ColorTableSizes` | internal/fileview/image.go:385-391 | A color table has none, or two to 256 colors of three bytes, by its flags. |
| `Gif.BlocksBegin` | internal/fileview/image.go:356-382 | The bytes that begin an image and an extension block and end a file (sections 20, 24 and 27 of the GIF89a specification). |
| `Orientation.StoredBack` | internal/fileview/orientation.go:184-203 | Turning a place by an orientation and by its inverse leads back to it. |
| `Orientation.StoredIsBijection` | internal/fileview/orientation.go:184-203 | The stored places are each used once, and no other (Orientation field, section 8 of TIFF 6.0). |
| `Orientation.CornersAreStored` | internal/fileview/orientation.go:184-203 | Which stored corner the upright top left and top right corners are, for each orientation (section 8 of TIFF 6.0). |
| `Orientation.NeighboursStay` | internal/fileview/orientation.go:184-203 | A step right or down in the upright picture is one step along one axis of the stored one. |
| `Orientation.TurnPixels` | internal/fileview/orientation.go:211-218 | Each upright pixel is the stored one the orientation says. |
| `Orientation.TurnsBack` | internal/fileview/orientation.go:166-219 | Turning by an orientation and then its inverse gives the picture back. |
| `Orientation.ReadsAt` | internal/fileview/orientation.go:264-269 | Wherever the picture starts, the chroma sample read for an upright one is the one the orientation says of the chroma plane. |
| `Orientation.TurnPlanes` | internal/fileview/orientation.go:248-273 | Every pixel and every sample of the turned picture is the stored one the orientation says, wherever the picture starts; none of the stored samples is left over exactly when the picture fits its samples. |
| `Orientation.TurningNeedsFit` | internal/fileview/orientation.go:248-273 | Turned planes are as large as the stored ones if and only if the picture starts where its samples do or has an odd length there. |
| `Orientation.OddStartLosesSample` | internal/fileview/orientation.go:248-273 | Pictures where they are not: from an odd column on, and an even number of pixels wide, two to a sample; the turned plane is one sample short. |
| `Tiff.TiffPages` | internal/fileview/orientation.go:95-115 | On all bytes, the pages are the directories of the chain the header starts, none twice, up to the limit. |
| `Tiff.OneChain` | internal/fileview/orientation.go:95-115 | There is only one such chain. |
| `Tiff.HeaderIs` | internal/fileview/orientation.go:34-52 | A header is read exactly from the eight bytes of either byte order. |
| `Tiff.NextIs` | internal/fileview/orientation.go:95-115 | The next directory stands behind the entries of one, twelve bytes each, in either byte order. |
| `Sheets.ColumnIndex` | internal/fileview/sheets.go:479-493 | The column the letters of a reference name, or -1 without letters or beyond the last column. |
| `Sheets.ColumnOfName` | internal/fileview/sheets.go:479-493 | The base-26 name of each of the 16384 columns is read back as that column, whatever follows it, and every later name as -1. |
| `Sheets.RowHasValues` | internal/fileview/sheets.go:389-396 | Each column has the value of the last cell there that shows something, or nothing. |
| `Sheets.RowEndsInValue` | internal/fileview/sheets.go:389-396 | A row ends in a column that shows something. |
| `Sheets.LineSplits` | internal/fileview/sheets.go:404 | Splitting a row's line at its tabs gives the row. |
| `SheetLaws.EndingIsASpace` | internal/fileview/sheets.go:342 | A tab or a line ending in a value is one space, a carriage return and newline too, and what is around it stays as alone. |
| `SheetLaws.PlainStays` | internal/fileview/sheets.go:342 | A value without tabs and line endings is shown as it is. |
| `SheetLaws.ColumnsAre` | internal/fileview/sheets.go:361-365 | A cell is in the column its reference names, and otherwise right of the one before, or in the first. |
| `SheetLaws.LettersNameColumns` | internal/fileview/sheets.go:479-493 | A reference that begins with no letter names no column, and small letters name what capitals do. |
| `SheetWalk.SheetReader.Read` | internal/fileview/sheets.go:342-417 | Over any tokens and any fault of the stream the loop leaves in the document what the machine's run over them puts out, and returns the error that run meets. |
| `SheetWalk.RunCell` | internal/fileview/sheets.go:366-396 | A cell gathers the text of its values and, apart from it, the text of its inline strings without phonetic readings; formulas and other elements add nothing. |
| `SheetWalk.RunRow` | internal/fileview/sheets.go:358-396 | A row's tokens put each cell's value in the column it names or the one after the cell before. |
| `SheetWalk.SheetIsRead` | internal/fileview/sheets.go:330-417 | On every tree of rows, of cells of values, inline strings and formulas, with anything around them, the document gets the lines of the rows, gap lines among them, up to its budget. |
| `SheetLaws.EndIsTold` | internal/fileview/sheets.go:344-352 | A reading that ends is an error by its depth or by how its tokens end, unless the document was full. |
| `SheetLaws.CellShape` | internal/fileview/sheets.go:366-388 | A cell's values and inline strings are gathered in order, and its formulas say nothing. |
| `SheetLaws.InlineShape` | internal/fileview/sheets.go:366-388 | An inline string is its texts in order. |
| `SheetLaws.RunShape` | internal/fileview/sheets.go:366-388 | Its texts count inside a run as outside one. |
| `SheetLaws.PhoneticShape` | internal/fileview/sheets.go:369-376 | A phonetic reading says nothing, whatever is in it. |
| `SheetLaws.RowShape` | internal/fileview/sheets.go:361-396 | A row is its cells in order, each with its reference and what is displayed of it. |
| `SheetLaws.SheetShape` | internal/fileview/sheets.go:354-360 | Rows count wherever they stand among elements that are not the sheet's own. |
| `SheetWalk.ReadSheet` | internal/fileview/sheets.go:330-417 | The same of one call that reads a worksheet. |
| `Sheets.LinesAccountForRows` | internal/fileview/sheets.go:397-431 | The lines account for each row from 1 to the last shown exactly once, in order, if and only if the row numbers increase. |
| `SheetLaws.LinesGiveRows` | internal/fileview/sheets.go:397-417 | The lines give every row that shows something, with its number and values in order, and no other. |
| `SheetLaws.RowIsShown` | internal/fileview/sheets.go:393-405 | A row is shown, with its number, exactly when one of its columns is filled. |
| `SheetLaws.ValuesAreWritten` | internal/fileview/sheets.go:404 | A row is written with a tab between its values, and splits at its tabs into them. |
| `SheetLaws.RowNumber` | internal/fileview/sheets.go:355-360 | A row has the number it carries from 1 on, and otherwise the one after the row before, in 64 bits. |
| `SheetLaws.EmptyIsSaid` | internal/fileview/sheets.go:422-431 | A line between two rows says which one is empty, or from which to which. |
| `Exposure.ExposedSpecs` | internal/mcp/server.go:460-510 | The filters and the repeated sweep end, with the specified tools. |
| `Exposure.AnyExposed` | internal/mcp/server.go:512-519 | Whether one of the tools is exposed. |
| `Exposure.ExposedIsGreatest` | internal/mcp/server.go:460-510 | The exposed tools are, in the catalogue's order, the greatest choice that passes every filter and in which each tool with needs has one of them. |
| `Exposure.ExposedExactly` | internal/mcp/server.go:460-510 | A tool is exposed exactly when it is in the catalogue and wanted, not excluded, allowed where a list is given, read-only where that is asked for, not withheld, and needs no other tool or one that is exposed. |
| `Scoping.ParsedScopeIsSound` | internal/mcp/scope.go:43-67 | A scope that is accepted is trimmed, names a project whenever it names a repository, and agrees with the project flag. |
| `Scoping.ScopeIsRead` | internal/mcp/scope.go:43-67 | What the two flags name, for each way of writing them, and when they are refused. |
| `Scoping.ArgumentMap.Bind` | internal/mcp/scope.go:227-254 | One argument is pinned when missing, blank or equal but for case, and refused otherwise; a map that is not there stops the program. |
| `Scoping.ApplyScope` | internal/mcp/scope.go:179-221 | A call is passed on with its arguments pinned, refused for the first thing wrong, or stops the program. |
| `Scoping.DispatchedIsConfined` | internal/mcp/scope.go:179-254 | A dispatched call has the scope's project, its repository when the scope names one, and every other argument as sent. |
| `Scoping.DispatchedExactly` | internal/mcp/scope.go:179-254 | A call with absent or object arguments is dispatched if and only if its tool can be bounded and nothing it names is outside the scope. |
| `Scoping.WithoutScope` | internal/mcp/scope.go:179-182 | Without a scope every call is handed on as it was sent. |
| `Scoping.ServedExactly` | internal/mcp/scope.go:150-175 | Under a scope exactly build statuses, the search in one repository and tools without a rule are withheld. |
| `Scoping.PinsRepository` | internal/mcp/scope.go:206-214 | Every tool but the search is pinned to the scope's repository too. |
| `Scoping.ApplyingAgainChangesNothing` | internal/mcp/scope.go:179-221 | Applying the scope a second time changes nothing. |
| `Scoping.OnlyNullPanics` | internal/mcp/scope.go:203-219 | The program stops if and only if a served tool is called with JSON null under a set scope. |
| `Scoping.NullPanics` | internal/mcp/scope.go:203-219 | An input where it stops: get_commit with JSON null under a project. |
| `Audit.AuditLogger.Log` | internal/mcp/audit.go:157-188 | One attempt to append: the record's whole line, or a failure and at most a beginning of it. |
| `Audit.Governor.WriteAudit` | internal/mcp/middleware.go:145-160 | A record that cannot be written stops the answer, or under the warn mode does not. |
| `Audit.Governor.CallTool` | internal/mcp/middleware.go:58-141 | A call out of scope is not handed on; any other is, with its arguments pinned. Either way one record is attempted, under the deny mode nothing else is answered unless its whole line was appended, and a call recorded as denied has not called the tool's handler. All a server was handed stays inside the scope. |
| `Audit.Governor.HandOn` | internal/mcp/middleware.go:91-140 | What is recorded of a call handed on is what its confirmation noted and its result, and the handler has been called as the confirmation let it. |
| `Audit.Server.Call` | internal/mcp/confirm.go:107-191 | A call asked again any number of times runs the tool's handler at most once, and what is noted of it is that of its last asking; a tool that does not ask is run with the call's own input. |
| `Audit.DeniedDidNotRun` | internal/mcp/confirm.go:494-512 | A request that is recorded as denied has called no tool's handler. |
| `Audit.RecordSays` | internal/mcp/middleware.go:58-141 | A record names the request with the project and repository it was handed on with, and how it ended: denied exactly when the scope, the person or the protocol refused it. |
| `Audit.RecordNamesScope` | internal/mcp/middleware.go:92-94 | A dispatched call is recorded with the scope's project, and its repository when the scope names one. |
| `Audit.ReplySays` | internal/mcp/middleware.go:145-160 | The answer is the scope's refusal or the server's, unless a record that must be written was not. |
| `Audit.AttemptSays` | internal/mcp/audit.go:176-186 | A record is written whole exactly when it can be encoded and fits with its newline, and otherwise only its beginning. |
| `Audit.Governor.ReadResource` | internal/mcp/middleware_resources.go:44-80 | The same of a resource read; a server that was only handed what is inside the scope still has been. |
| `Audit.Governor.ListResources` | internal/mcp/middleware_resources.go:85-111 | The list is asked for, narrowed to the scope, and recorded, as a success or a failure, before it is answered. |
| `Audit.Governor.GetPrompt` | internal/mcp/middleware_resources.go:115-152 | The same of a prompt, its project and repository pinned or refused. |
| `Audit.CallIsInside` | internal/mcp/middleware.go:72-94 | A call that the scope lets through names the scope's project and, where there is one, its repository. |
| `Audit.PromptIsConfined` | internal/mcp/middleware_resources.go:219-232 | A prompt is handed on exactly when it names nothing outside the scope; it then has the scope's project and repository, and every argument the scope does not pin as sent. |
| `Audit.ReadIsConfined` | internal/mcp/middleware_resources.go:55-73 | A read of the URI of any resource is refused exactly when the URI reads as a resource and that resource is outside the scope. |
| `Audit.BindPromptScope` | internal/mcp/middleware_resources.go:219-232 | A prompt's arguments are pinned in turn, or refused at the first that names something else. |
| `AuditRuns.RunsAreRecorded` | internal/mcp/middleware.go:44-160 | However requests interleave, at every moment each has attempted its own record at most once, has made the calls of its decision and no others, and is answered after that attempt and as it allows. |
| `AuditRuns.DeniedNeverRuns` | internal/mcp/middleware.go:110-133 | At no moment of any run is there a denied record in the log and a call of a tool's handler for the same request. |
| `AuditRuns.AnsweredIsLogged` | internal/mcp/middleware.go:145-160 | Under the deny mode whatever was answered, but that it cannot be audited, has its whole line in the log. |
| `AuditRuns.RequestIsSteps` | internal/mcp/middleware.go:58-141 | One request served alone continues any run by the three steps of deciding, writing and answering. |
| `AuditRuns.CallToolInRun` | internal/mcp/middleware.go:58-141 | Every call of the middleware is those steps: its log and the handler's calls stay those of the run, and its reply is the run's. |
| `AuditRuns.LogGrows` | internal/mcp/audit.go:182-186 | The log only grows. |
| `AuditRuns.RunLogSplits` | internal/mcp/audit.go:182-186 | At every moment of a run the log, split at newlines, is the whole records with the fragments before them, and the unfinished rest. |
| `AuditRuns.RunRecordStandsAlone` | internal/mcp/audit.go:182-186 | In every run a record written whole becomes a line of its own if and only if no failed write left a fragment since the last whole one. |
| `AuditRuns.FragmentSpoilsNextLine` | internal/mcp/audit.go:182-186 | An input where it does not: a record that fails after one byte, and one that follows it. |

## Left out

- The `bodyOnly` mode of the text walker for slides' notes, and `budgeted.Read`: the walker is modelled for whole documents, and its reader by the fault it ends with.
- Finding a document's parts, relationships and shared strings: name and map lookups around the walkers.
- Calendar formatting of dates in sheets, and number formats.
- SheetWalk.SheetIsRead: about trees of the shape a worksheet has; what is read of any other tokens is the machine's run, as SheetWalk.SheetReader.Read says.
- `webpFeatures`, `fitImage`, and reading the orientation out of EXIF, JPEG and TIFF data: header reads without an inverse to prove.
- Orientation.TurnPlanes: the two 4:1 ratios are turned pixel by pixel in the program, as Orientation.TurnPixels is, after a conversion of colors that is not modelled.
- The header sentences, prompts, help texts and messages of every part.
- `capDiff`, resource names and titles, completions of prompt arguments, and caching hints.
- Confirmations of the other tools that ask, whose questions differ and whose protocol does not.
- Startup files through a link whose target is missing, which cannot be created; making directories is part of opening the file.
- Files of bb's own that hold a whole completion script: written and removed whole.
- Logins for hosts an allow list refuses are refused by a parameter; the comparison of hosts with the list is not modelled.
- IPv6 aliases, and aliases that name a port outside digits.
- Doctor: list-valued policy keys, dotenv files apart from the environment they set, and settings that only parse a number or a duration.
- Hosts.EnsureAliasOwnership: loops over the map's keys in an arbitrary order, as the program does, and does not say which owner it would name.
- The audit record's time, duration, arguments and redaction; a server without an audit sink writes nothing.
- Which default host follows a logout: any that is left, as in the program.
