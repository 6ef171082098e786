# rye conversation store and streaming splitter, in Dafny

This project models two parts of `rye`, a terminal chat client.

**The conversation store** (`src/conversation.rs`) keeps each conversation as a Markdown file:

- The file opens with a level-1 heading: the title, or the placeholder `# Conversation <id>`.
- Each message is appended as a `## You` or `## Assistant` section.
- `set_title` renames the file after a sanitised version of the title and rewrites the file in bulk.
- `parse_markdown_conversation` reads a file back into a title and a list of `(role, content)` turns.
- `find_conversation_file` finds a file by a substring of its name.

**The streaming block splitter** (`src/streaming.rs`) receives a model's response as a stream of text chunks:

- It cuts the text into lines.
- It hands complete Markdown blocks to the renderer: at a blank line, at a `#` heading (rendered alone) and at the end of a ``` fence.
- It returns the whole text it received.

The project has four files:

- **`text.dfy`** (module `Text`): the Rust `str` operations the code relies on, stated exactly over `string`. They are `trim`, `lines`, `split`, `join`, `starts_with`, `contains`, `trim_start_matches`, `char::is_whitespace`, `char::is_control` and the UTF-8 length.
- **`conversation.dfy`** (module `Conversation`):
  - the header and message-chunk text;
  - the `Conversation` object, as a class whose `document` field is the file body;
  - `sanitize_filename`;
  - the file search over a given sequence of directory entries;
  - the reader. It is an index-driven scanner (`ParseMarkdownConversation`), proved equal to a recursive specification (`ParseConversation`).
- **`document_proofs.dfy`** (module `DocumentProofs`): what the reader makes of a document the writers produce. This includes the round trip.
- **`streaming.dfy`** (module `Streaming`):
  - the splitter as a class, `BlockSplitter`, whose fields are the function's local variables;
  - a ghost `log` of what was rendered or printed;
  - a function-level specification, `CompleteLine`/`Step`/`Feed`/`Drained`, that the methods are proved against;
  - lemmas about that specification.

Operating-system effects become parameters:

- The outcome of a rename, write or append is a `bool`.
- The conversations directory and the random UUID are arguments.
- A directory listing is a sequence of entries.
- The response stream is a sequence of `Chunk(text)` or `Failure(message)` items.

## Model

| member | source | states |
|---|---|---|
| Conversation.Header | src/conversation.rs:71-79 | The header text: `"# " + title + "\n\n"`, or the placeholder `"# Conversation " + id + "\n\n"`. It is the text both `write_header` and `rewrite_file_with_title` (:100-105) write. `WriteHeader` and `IncrementalEqualsBulk` state it. `DocumentProofs.LinesOfDocument` and `ReadBackTitle` state how it reads back. |
| Conversation.RoleHeading | src/conversation.rs:109-113 | `## You` exactly for the role `user`, `## Assistant` for every other role. The same test is repeated at :124-128. `DocumentProofs.RoleHeadingReadsBack` states how it reads back. |
| Conversation.MessageChunk | src/conversation.rs:124-129 | The text one message adds: `"\n" + heading + "\n\n" + content + "\n\n"`, the same format as :114. `DocumentProofs.LinesOfChunk` and `ChunkTurn` state how it reads back. |
| Conversation.Chunks | src/conversation.rs:108-115 | The message chunks of a sequence, in order, as the `for` loop pushes them. `ChunksSnoc` and `LinesOfChunks` state its properties. |
| Conversation.Document | src/conversation.rs:97-119 | The whole text `rewrite_file_with_title` writes: the header followed by every chunk. It is `RewriteFileWithTitle`'s postcondition, and `DocumentProofs.RoundTrip` reads it back. |
| Conversation.AppendChunks | src/conversation.rs:121-138 | The file after one `add_message` append per message, in order. `AppendChunksIsConcat` and `IncrementalEqualsBulk` relate it to `Document`. |
| Conversation.IncrementalEqualsBulk | src/conversation.rs:71-79 | The header followed by one `add_message` chunk per message, appended in order, is byte for byte the text `rewrite_file_with_title` writes for the same title and messages. |
| Conversation.AppendChunksIsConcat | src/conversation.rs:121-138 | Appending chunks one at a time gives the body followed by all the chunks concatenated. |
| Conversation.ChunksSnoc | src/conversation.rs:107-115 | The bulk chunk text of `msgs + [m]` is that of `msgs` followed by the chunk of `m`. |
| Conversation.Conversation.constructor | src/conversation.rs:22-38 | `Conversation::new` on its success path: the path is `<dir>/<id>.md`, there are no messages and no title, and the file holds the placeholder header `# Conversation <id>` and a blank line. |
| Conversation.Conversation.WriteHeader | src/conversation.rs:71-79 | On a successful write the file becomes `"# " + title + "\n\n"` when titled, else `"# Conversation " + id + "\n\n"`. On a failed write the error is returned, and the file is either the old file or a prefix of the header. |
| Conversation.Conversation.SetTitle | src/conversation.rs:81-95 | A failed rename changes nothing and fails. Otherwise the stored title is the unsanitised one and the path is `<dir>/<sanitize_filename(title)>.md`. After a successful rewrite the file is the full document under the new title. After a failed rewrite the error is returned, and the file is either the old file or a prefix of that document. The id and messages never change. |
| Conversation.Conversation.RewriteFileWithTitle | src/conversation.rs:97-119 | On success the file is the header plus every message chunk in order, so it is in sync with memory. On failure the error is returned, and the file is either the old file or a prefix of that text, since `fs::write` truncates before writing. |
| Conversation.Conversation.AddMessage | src/conversation.rs:121-138 | `messages` grows by exactly `(role, content)` at the end, also when the file write fails. On success the file grows by `"\n" + H + "\n\n" + content + "\n\n"`, where H is `## You` exactly for the role `user` and `## Assistant` otherwise. On failure the error is returned, and the file keeps its old text followed by some prefix of that chunk, possibly none of it. A successful append to an in-sync file keeps it in sync. |
| Conversation.SanitizeFilename | src/conversation.rs:182-193 | No character of the result is one of `/ \ : * ? " < > \|` or a control character. The result has no whitespace at either end and is no longer than the input. |
| Conversation.SafeChars | src/conversation.rs:183-190 | The per-character map keeps the length and leaves only safe characters. |
| Conversation.TrimKeepsSafe | src/conversation.rs:191 | Trimming a string of safe characters leaves only safe characters. |
| Conversation.SanitizeIdempotent | src/conversation.rs:182-193 | Sanitising twice gives the same as sanitising once. |
| Conversation.SanitizeFixed | src/conversation.rs:182-193 | A name of safe characters with no whitespace at either end is left unchanged by sanitising. |
| Conversation.FirstMatch | src/conversation.rs:144-161 | The first-match loop. An `Ok` path is a readable entry that passes the filter and contains `id`, and every entry before it was readable and rejected. `NotFound` is returned exactly when every entry was readable and rejected. An error is returned only at an unreadable entry that comes before any match. |
| Conversation.FindConversationFile | src/conversation.rs:141-162 | The search as written, with the filter `Path::ends_with("md")`. A failed `read_dir` is an error. Otherwise the result is what `FirstMatch` describes. |
| Conversation.FindConversationFileByExtension | src/conversation.rs:141-162 | The search with the filter evidently intended, `extension() == "md"` (as in `list_conversations` at src/conversation.rs:274). Any path it returns has the `md` extension and contains `id`, and it is the first such entry. `NotFound` comes exactly when every entry is readable and none qualifies. |
| Conversation.FindMissesMarkdownFiles | src/conversation.rs:148 | `c/abc.md` has the `md` extension and contains `abc`. Yet the search as written reports `NotFound` for it, while the intended search returns it. |
| Conversation.Components | src/conversation.rs:148 | `Path::components` of a `/`-separated path: the non-empty pieces other than `.`. `ExampleComponents` shows that `c/abc.md` has the components `c` and `abc.md`. |
| Conversation.EndsWithMd | src/conversation.rs:148 | `path.ends_with("md")`: the last component is exactly `md`. `FindMissesMarkdownFiles` shows that it rejects `c/abc.md`. |
| Conversation.HasMdExtension | src/conversation.rs:274 | `path.extension() == Some("md")`: in the last component, unless it is `..`, a `.` after the first character with `md` after the last `.`. `FindMissesMarkdownFiles` shows that it accepts `c/abc.md`. |
| Conversation.LastIndexOf | src/conversation.rs:274 | The position of the last `.`, used by the extension test: the character there is `.` and none follows it. |
| Conversation.HeadingRole | src/conversation.rs:211-229 | A line opens a section only if it starts with `## `, and the role is then `user` or `assistant`. |
| Conversation.SectionEnd | src/conversation.rs:215-218 | A section body ends at or after its start and within the lines. |
| Conversation.SectionEndStops | src/conversation.rs:215-218 | No line inside a section body starts with `## `, and a section that ends before the last line ends at a `## ` line. |
| Conversation.DropLeadingBlank | src/conversation.rs:220-222 | The result is a suffix of the input and does not start with a whitespace-only line. |
| Conversation.DropTrailingBlank | src/conversation.rs:223-225 | The result is a prefix of the input and does not end with a whitespace-only line. |
| Conversation.DropLeadingStep | src/conversation.rs:220-222 | Removing one leading blank line does not change the outcome. |
| Conversation.DropTrailingStep | src/conversation.rs:223-225 | Removing one trailing blank line does not change the outcome. |
| Conversation.TrimBlankLines | src/conversation.rs:220-225 | The trimmed section neither starts nor ends with a whitespace-only line. |
| Conversation.DropLeadingBlankCuts | src/conversation.rs:220-222 | Every line removed from the front was whitespace-only. |
| Conversation.DropTrailingBlankCuts | src/conversation.rs:223-225 | Every line removed from the back was whitespace-only. |
| Conversation.TrimBlankLinesInfix | src/conversation.rs:220-225 | The trimmed section is a contiguous piece of the original section. |
| Conversation.TrimBlankLinesCuts | src/conversation.rs:220-225 | The trimmed section is a contiguous piece of the section, and everything cut from either end was whitespace-only. |
| Conversation.Turn | src/conversation.rs:226-228 | The turn a section yields: none if its trimmed body is empty, else one message whose content is the body joined with `\n`. `TurnRecovered` and `DocumentProofs.BlankSectionDropped` state its properties. |
| Conversation.SectionsFrom | src/conversation.rs:210-256 | The turns the scan finds from a position on, in document order. A `## You` or `## Assistant` line yields its section's turn and the scan resumes at the section end; any other line is skipped. `ScanLine` and `ReadTurn` tie the loop to it, and `SectionsRecovered` and `DocumentProofs.SectionsOfJoined` state its properties. |
| Conversation.BodyStart | src/conversation.rs:202-208 | The scan starts at line 1 when the first line starts with `# `, whether or not it gives a title, else at line 0. `ReadTitle` states it. |
| Conversation.ParseConversation | src/conversation.rs:195-259 | What the reader returns: the turns found from `BodyStart` in `str::lines` of the content, and `TitleOf` those lines. `ParseMarkdownConversation` is proved equal to it, and `DocumentProofs.RoundTrip` reads written documents back through it. |
| Conversation.TitleOf | src/conversation.rs:202-208 | A title is found only on a first line starting with `# `, and a found title never starts with `Conversation `. |
| Conversation.TurnRecovered | src/conversation.rs:226-228 | A turn read from heading-free lines has role `user` or `assistant`, non-empty content, no leading or trailing whitespace-only line and no `## ` line. |
| Conversation.JoinRecovered | src/conversation.rs:227 | Joining trimmed, heading-free lines with `\n` gives content of that shape. |
| Conversation.SectionsRecovered | src/conversation.rs:210-256 | Every turn the reader emits from any text has that shape: non-empty, no whitespace-only first or last line, and a known role. |
| Conversation.ParseMarkdownConversation | src/conversation.rs:195-259 | The index-driven scanner computes exactly `ParseConversation`: the title from line 0 and the turns of `SectionsFrom(lines, BodyStart(lines))` in document order. Every turn it returns has the shape above. |
| Conversation.ScanLine | src/conversation.rs:210-255 | One step of the scan moves strictly forward. The turns it yields, followed by the rest of the scan, are the turns of the whole remaining scan. |
| Conversation.ReadTurn | src/conversation.rs:211-252 | At a `## You` or `## Assistant` line: reads the section up to the next `## ` line, and yields its trimmed content as a turn unless it is blank. |
| Conversation.ReadTitle | src/conversation.rs:201-208 | Yields `TitleOf(lines)`, and starts the scan at 1 exactly when line 0 starts with `# `. |
| Conversation.TurnStep | src/conversation.rs:226-228 | A non-empty trimmed section yields one turn `(role, lines joined by "\n")`. An empty one yields nothing. |
| Conversation.ReadSection | src/conversation.rs:213-225 | The collecting loop stops at `SectionEnd`, and the two trimming loops produce `TrimBlankLines` of the collected lines. |
| DocumentProofs.LinesOfDocument | src/conversation.rs:97-119 | A written document reads, under `str::lines`, as the header line, one empty line, then for each message an empty line, its heading, an empty line, its content lines and an empty line. |
| DocumentProofs.LinesOfChunk | src/conversation.rs:124-129 | One message chunk reads as those lines. |
| DocumentProofs.LinesOfChunks | src/conversation.rs:108-115 | All chunks together read as the lines of each chunk, in order. |
| DocumentProofs.RoleHeadingReadsBack | src/conversation.rs:109-113 | The heading the writer uses for a role is read back as `user` for `user` and as `assistant` for any other role. |
| DocumentProofs.RoleHeadingIsLine | src/conversation.rs:109-113 | A role heading is one line with no `\r` to strip. |
| DocumentProofs.RoleHeadingOpensSection | src/conversation.rs:109-113 | A role heading ends the section before it. |
| DocumentProofs.SectionsFromSkip | src/conversation.rs:253-255 | A line that does not open a section is skipped. |
| DocumentProofs.SectionsFromTurn | src/conversation.rs:211-252 | A heading line yields the turn of its section, followed by the turns after that section. |
| DocumentProofs.SectionsFromShift | src/conversation.rs:210-256 | The scan depends only on the lines from the current position on. |
| DocumentProofs.SectionsFromAppend | src/conversation.rs:210-256 | Scanning `a + r` from inside `r` is scanning `r`. |
| DocumentProofs.StrayLinesIgnored | src/conversation.rs:253-255 | Lines outside any section are ignored: they do not change the turns read after them. |
| DocumentProofs.BlankSectionDropped | src/conversation.rs:226-228 | A section yields no turn exactly when all its lines are whitespace-only. |
| DocumentProofs.SectionsFromPrefix | src/conversation.rs:210-256 | Scanning lines that start with `a` (cut at a heading) yields the turns of `a` first. |
| DocumentProofs.SectionsOfJoined | src/conversation.rs:210-256 | Turns come out in document order: for a second part that starts at a `## ` line, the turns of `a + r` are those of `a` followed by those of `r`. |
| DocumentProofs.TrimBlankLinesAround | src/conversation.rs:220-225 | Blank lines around a body with non-blank ends are exactly what the trimming removes. |
| DocumentProofs.ChunkTurn | src/conversation.rs:210-252 | The body of a written chunk is read back as the message, with its role normalised. |
| DocumentProofs.ChunkStep | src/conversation.rs:210-256 | A written chunk followed by more chunks yields its message first. |
| DocumentProofs.ChunkSections | src/conversation.rs:210-256 | The chunks of storable messages are read back as those messages, in order, with roles normalised: any role other than `user` comes back as `assistant`. |
| DocumentProofs.ReadBackMessages | src/conversation.rs:195-259 | The turns read from a written document are the written messages, with roles normalised: any role other than `user` comes back as `assistant`. |
| DocumentProofs.ReadBackTitle | src/conversation.rs:202-208 | A storable title is read back unchanged. A storable title has no `\n`, no whitespace at either end, and does not start with `# ` or `Conversation `. |
| DocumentProofs.PlaceholderStaysPlaceholder | src/conversation.rs:202-208 | The placeholder header still starts with `Conversation ` after the reader strips `# ` and trims it. |
| DocumentProofs.PlaceholderReadsAsUntitled | src/conversation.rs:202-208 | A document written without a title is read back with no title. |
| DocumentProofs.RoundTrip | src/conversation.rs:195-259 | Reading back a header plus appended chunks gives the title and the messages, with roles normalised (exactly the messages when every role is `user` or `assistant`). This holds for every message whose content is non-empty, has no leading or trailing whitespace-only line, no line starting with `## ` and no line ending in `\r`. |
| Streaming.IsListItem | src/streaming.rs:94-101 | A list item is never empty. A text starting with `-`, `*` or `+` is one. Any other list item starts with a numeral followed by `.`. |
| Streaming.NumberedItem | src/streaming.rs:98-100 | On ASCII text the byte-length guard means at least three characters: a numeral, `.`, and something after. So `1.` is not a list item. |
| Streaming.CompleteLine | src/streaming.rs:25-70 | The branches at a completed line, in the source's order. A fence line closes the open block with the line, or flushes and opens one. Inside a fence any other line is appended. A blank line flushes and becomes a separator. A `#` line flushes and is a block alone. Anything else is appended. The line is then cleared. `FenceCloses` to `TextAccumulates` state each branch, and `CompleteLineConserves` and `CompleteLineGood` state its invariants. |
| Streaming.Step | src/streaming.rs:21-24 | One character joins the current line, and a `\n` completes it. `StepConserves` and `StepGood` state its invariants. |
| Streaming.Feed | src/streaming.rs:21-73 | A chunk, character by character. `FeedAppend`, `FeedLine`, `FeedConserves` and `FeedGood` state its properties, and `BlockSplitter.PushChunk` is proved equal to it. |
| Streaming.Received | src/streaming.rs:15-80 | The text of the `Ok` chunks before the first error. `FailureEndsStream` states that nothing after an error is read. |
| Streaming.Split | src/streaming.rs:15-89 | All events of a stream: the received text fed from the start, then drained. `SplitSound` and `SplitExample` state its properties, and `StreamAndRenderResponse` emits it. |
| Streaming.Flush | src/streaming.rs:50-53 | Flushing emits at most one event, and only a non-empty block holding exactly the buffer. |
| Streaming.Drained | src/streaming.rs:83-89 | The end of the stream keeps every earlier event and adds at most one block. |
| Streaming.CompleteLineConserves | src/streaming.rs:28-70 | Handling a completed line loses no text and invents none. The emitted text, the buffer and the partial line together are the same before and after. |
| Streaming.StepConserves | src/streaming.rs:21-24 | One character adds exactly itself to the text the splitter holds. |
| Streaming.FeedConserves | src/streaming.rs:21-73 | Feeding a text adds exactly that text to the emitted, pending and partial text. |
| Streaming.DrainedConserves | src/streaming.rs:83-89 | After the end-of-stream flush nothing is held back: the emitted text (each separator standing for its whitespace-only line) is everything taken in. |
| Streaming.CompleteLineGood | src/streaming.rs:28-70 | A completed line emits no empty block. It prints a separator only for a whitespace-only line, leaves no partial line, and inside an open fence the buffer is never empty. |
| Streaming.StepGood | src/streaming.rs:21-72 | One character preserves that invariant. |
| Streaming.FeedGood | src/streaming.rs:21-73 | Any text preserves that invariant. |
| Streaming.DrainedGood | src/streaming.rs:83-89 | The end-of-stream flush emits no empty block, including inside an unclosed fence. |
| Streaming.FeedAppend | src/streaming.rs:15-21 | How the stream is cut into chunks does not matter: feeding `a + b` is feeding `a`, then `b`. |
| Streaming.FeedPartial | src/streaming.rs:22 | Characters before a line's end only grow the current line. |
| Streaming.FeedLine | src/streaming.rs:22-72 | A whole line takes the splitter through the line handling exactly once. |
| Streaming.FenceCloses | src/streaming.rs:28-34 | Inside a fence, a line whose trimmed form starts with ```` ``` ```` emits buffer plus line as one block, clears the buffer and leaves the fence. |
| Streaming.FenceOpens | src/streaming.rs:35-44 | Outside a fence, such a line first flushes a non-empty buffer. The buffer then becomes the fence line alone, and the fence is open. |
| Streaming.FenceSuspends | src/streaming.rs:45-47 | Inside a fence, every other line, blank lines and `#` lines included, is appended to the buffer and nothing is emitted. |
| Streaming.BlankLineSeparates | src/streaming.rs:48-55 | Outside a fence, a whitespace-only line flushes a non-empty buffer, then prints one separator. |
| Streaming.HeadingStandsAlone | src/streaming.rs:56-61 | Outside a fence, a line whose trimmed form starts with `#` flushes the buffer and is then rendered alone. |
| Streaming.TextAccumulates | src/streaming.rs:62-68 | Outside a fence, every other line, list item and prose alike, is appended to the buffer and nothing is emitted. |
| Streaming.ExampleHeading | src/streaming.rs:48-61 | A heading line and a blank line from the start give the heading block and a separator. |
| Streaming.ExampleParagraph | src/streaming.rs:48-68 | With nothing pending, a paragraph line and a blank line give the paragraph block and a separator. |
| Streaming.ExampleCode | src/streaming.rs:28-47 | With nothing pending, a fenced one-line code block gives one block holding both fences and the code. |
| Streaming.ExampleFeed | src/streaming.rs:21-72 | The three parts of the example, fed in sequence. |
| Streaming.SplitExample | src/streaming.rs:15-89 | A heading, a blank line, a paragraph, a blank line and a ```` ``` ```` code block, sent as one chunk, yield five events in order: the heading, a separator, the paragraph, a separator, then the whole code block. |
| Streaming.FailureEndsStream | src/streaming.rs:76-79 | The first error ends the stream: nothing after it is read. |
| Streaming.SplitSound | src/streaming.rs:15-91 | For any stream, the emitted text is exactly the text of the `Ok` chunks before the first error. No block is empty, and every separator replaces a whitespace-only line. |
| Streaming.BlockSplitter.constructor | src/streaming.rs:9-12 | The four variables start empty and false, and nothing has been emitted. |
| Streaming.BlockSplitter.RenderMarkdown | src/streaming.rs:56-61 | A call to `render_markdown` logs exactly one block. |
| Streaming.BlockSplitter.PrintSeparator | src/streaming.rs:55 | `println!()` logs one separator for the current line. |
| Streaming.BlockSplitter.FlushBuffer | src/streaming.rs:50-53 | The guarded flush renders a non-empty buffer and always leaves the buffer empty. |
| Streaming.BlockSplitter.EndLine | src/streaming.rs:24-70 | The per-line branch updates the state exactly as `CompleteLine` says. |
| Streaming.BlockSplitter.PushChar | src/streaming.rs:21-24 | One character updates the state as `Step` says. |
| Streaming.BlockSplitter.PushChunk | src/streaming.rs:17-74 | `full_response` grows by the chunk, and the state becomes `Feed` of the chunk. The invariant is kept: only sound events, and `full_response` equals everything the splitter took in. |
| Streaming.BlockSplitter.Finish | src/streaming.rs:83-89 | The end-of-stream flush gives `Drained` of the state, and the emitted text is exactly `full_response`. |
| Streaming.StreamAndRenderResponse | src/streaming.rs:6-92 | Returns exactly the concatenation of the `Ok` chunks before the first error, or before the end. What it renders is `Split` of the stream: it accounts for every returned character, has no empty block, and prints separators only for whitespace-only lines. |
| Text.Trim | src/streaming.rs:25 | `str::trim` returns a result no longer than its input, with no whitespace at either end. |
| Text.TrimIsInfix | src/conversation.rs:191 | `str::trim` returns a contiguous piece of its input. |
| Text.BlankIsTrimmedEmpty | src/conversation.rs:220 | A line is whitespace-only exactly when its trimmed form is empty. |
| Text.TrimStartMatches | src/conversation.rs:203 | `trim_start_matches("# ")` returns a suffix of its input that no longer starts with `# `. |
| Text.Lines | src/conversation.rs:197 | `str::lines`: the text is cut at each `\n`. A line cut there also loses one trailing `\r`. A final `\n` yields no empty last line, and an unterminated last line keeps its `\r`. `LinesAppend`, `LinesOfTerminated` and `LinesHaveNoNewline` state its properties. |
| Text.LinesAppend | src/conversation.rs:197 | `str::lines` of a text ending in `\n`, followed by more text, is the lines of each part. |
| Text.LinesOfTerminated | src/conversation.rs:197 | When no line ends in `\r`, a terminated text reads back as its `\n`-separated pieces. |
| Text.LinesHaveNoNewline | src/conversation.rs:197 | No line from `str::lines` contains `\n`. |
| Text.PiecesJoin | src/conversation.rs:227 | Splitting `\n`-free lines that were joined with `\n` gives back the lines. |
| Text.JoinPieces | src/conversation.rs:227 | Joining the `\n`-separated pieces of a text gives back the text. |
| Text.Utf8Length | src/streaming.rs:98 | `str::len` is between one and four bytes per character. |

## Left out

- `Conversation::load` and `list_conversations` are not modelled as operations: they read files, stat them, and sort by modification time. Their logic is modelled in the pieces they call: `parse_markdown_conversation`, `find_conversation_file`, and the `extension() == "md"` filter (`HasMdExtension`).
- `get_conversations_dir` (environment variable and home directory lookup) and `fs::create_dir_all` are left out. The directory is an argument.
- The UUID from `Uuid::new_v4` is random. It is an argument of the constructor.
- File system outcomes are `bool` arguments: `fs::rename` in `SetTitle`, `fs::write` in `WriteHeader` and `RewriteFileWithTitle`, open-then-append in `AddMessage`, and `read_dir` in `FindConversationFile`. Errors collapse to the single kind `Failed`, plus `NotFound` for the search.
- After a failed write the model says only what the file may hold. For `fs::write` that is the old file or a prefix of the new text. For an append it is the old file followed by a prefix of the chunk. Which of these it is stays open, and prefixes are counted in characters, so a write that stops inside a multi-byte UTF-8 character is not represented.
- Conversation.Conversation.constructor: models `Conversation::new` on its success path only. When `create_dir_all` or the header write fails, `new` returns the error and no object exists; a Dafny constructor cannot return that error. `WriteHeader` itself models both outcomes.
- A directory listing is a sequence of entries: a path string, or an unreadable entry that makes `entry?` fail.
- `PathBuf::join` and `Path::components` are modelled for Unix `/`-separated paths only.
- `Path::to_str` is treated as always succeeding, since strings are Unicode here.
- `render_markdown` and its termimad styling are left out. Each call is logged as a block, and it always succeeds.
- The following are not modelled: `println!()` output (logged as a separator), `eprintln!`, and `stdout().flush()`. The flush is treated as always succeeding.
- The async `Stream` is a finite sequence of items.
- Streaming.IsNumeric: `char::is_numeric` is approximated by the ASCII digits `0`-`9`. Other Unicode numerals are not list markers in the model. This only affects `is_list_item`, which does not change the splitter's output: list items and prose take the same branch.
- `Text.IsControl` and `Text.IsWhitespace` follow the Unicode Cc category and White_Space property exactly. No other Unicode tables are involved.
- DocumentProofs.RoundTrip: the hypothesis on message contents is "no line ends in `\r`" (`NoCRLineEnd`), which is weaker than "contains no `\r`". Roles other than `user` are read back as `assistant`, so the round trip is exact only for the roles `user` and `assistant`.
- `ScanLine`, `ReadTurn`, `ReadTitle` and `ReadSection` are named pieces of the single function `parse_markdown_conversation`. The source writes the user and assistant branches out twice. The model shares one `ReadTurn` that takes the role.
- `src/streaming.rs` is not declared as a module in `src/main.rs`, so the code is unused by the binary. It is modelled as written.
- Providers (`src/providers/`), the CLI loop (`src/main.rs`) and `src/render.rs` are not part of this model.

## Findings

| source | as written | input that shows it | evidently intended | confidence | as-written member | corrected member |
|---|---|---|---|---|---|---|
| src/conversation.rs:148 | `path.ends_with("md")` compares whole path components, so it only accepts a path whose last component is exactly `md` | the directory holds `c/abc.md` and the id is `abc`: the search returns `NotFound` | `path.extension() == Some("md")`, the filter `list_conversations` uses at src/conversation.rs:274 | high; follows from the documented `Path::ends_with` semantics; not executed | Conversation.FindMissesMarkdownFiles | Conversation.FindConversationFileByExtension |
