/** Model of the conversation store of `src/conversation.rs`: the Markdown
    document a conversation is kept in (written incrementally by
    `add_message`, in bulk by `rewrite_file_with_title`), the line-based
    reader `parse_markdown_conversation`, the file-name sanitiser used when a
    conversation gets a title, and the substring search over a directory
    listing. The file system is replaced by the text it would hold: the
    backing document is a string field, directory listings are sequences of
    path strings, and the outcome of each I/O call is a parameter. */
module Conversation {
  import opened Text

  datatype Option<T> = None | Some(value: T)

  datatype Result<T, E> = Ok(value: T) | Err(error: E)

  /** The two `io::ErrorKind`s the store tells apart. */
  datatype IoError = NotFound | Failed

  /** One `(role, content)` entry of `Conversation::messages`. */
  datatype Message = Message(role: string, content: string)

  // ---------------------------------------------------------------------
  // The document format (writer side)
  // ---------------------------------------------------------------------

  /** The first two lines of a document: the title as a level-1 heading, or
      the placeholder heading that carries the identifier. */
  function Header(title: Option<string>, id: string): string
  {
    match title
    case Some(t) => "# " + t + "\n\n"
    case None => "# Conversation " + id + "\n\n"
  }

  /** `"## You"` for the role `"user"`, `"## Assistant"` for every other role. */
  function RoleHeading(role: string): string
  {
    if role == "user" then "## You" else "## Assistant"
  }

  /** The text one message adds to a document. */
  function MessageChunk(m: Message): string
  {
    "\n" + RoleHeading(m.role) + "\n\n" + m.content + "\n\n"
  }

  /** The chunks of a message sequence, in order. */
  function Chunks(msgs: seq<Message>): string
    decreases |msgs|
  {
    if msgs == [] then [] else MessageChunk(msgs[0]) + Chunks(msgs[1..])
  }

  /** The whole document for a title, an identifier and the messages. */
  function Document(title: Option<string>, id: string, msgs: seq<Message>): string
  {
    Header(title, id) + Chunks(msgs)
  }

  /** What a file holding `body` holds after one `add_message` append per
      message of `msgs`, in order. */
  function AppendChunks(body: string, msgs: seq<Message>): string
    decreases |msgs|
  {
    if msgs == [] then body else AppendChunks(body + MessageChunk(msgs[0]), msgs[1..])
  }

  lemma {:induction false} ChunksSnoc(msgs: seq<Message>, m: Message)
    ensures Chunks(msgs + [m]) == Chunks(msgs) + MessageChunk(m)
    decreases |msgs|
  {
    if msgs == [] {
      assert [m][1..] == [];
    } else {
      assert (msgs + [m])[1..] == msgs[1..] + [m];
      ChunksSnoc(msgs[1..], m);
    }
  }

  lemma {:induction false} AppendChunksIsConcat(body: string, msgs: seq<Message>)
    ensures AppendChunks(body, msgs) == body + Chunks(msgs)
    decreases |msgs|
  {
    if msgs != [] {
      AppendChunksIsConcat(body + MessageChunk(msgs[0]), msgs[1..]);
    }
  }

  /** The append-only writer and the bulk writer agree: a header followed by
      one append per message is byte for byte the rewritten document. */
  lemma IncrementalEqualsBulk(title: Option<string>, id: string, msgs: seq<Message>)
    ensures AppendChunks(Header(title, id), msgs) == Document(title, id, msgs)
  {
    AppendChunksIsConcat(Header(title, id), msgs);
  }

  // ---------------------------------------------------------------------
  // File names
  // ---------------------------------------------------------------------

  /** The characters `sanitize_filename` always replaces. */
  predicate IsReserved(c: char)
  {
    c == '/' || c == '\\' || c == ':' || c == '*' || c == '?' || c == '"'
    || c == '<' || c == '>' || c == '|'
  }

  predicate IsSafe(c: char)
  {
    !IsReserved(c) && !IsControl(c)
  }

  function SafeChar(c: char): (d: char)
  {
    if IsSafe(c) then c else '_'
  }

  /** `sanitize_filename`: every reserved or control character becomes `_`,
      then surrounding whitespace is trimmed. */
  function SanitizeFilename(title: string): (r: string)
    ensures forall k :: 0 <= k < |r| ==> IsSafe(r[k])
    ensures r == [] || (!IsWhitespace(r[0]) && !IsWhitespace(r[|r| - 1]))
    ensures |r| <= |title|
  {
    var mapped := SafeChars(title);
    TrimKeepsSafe(mapped);
    Trim(mapped)
  }

  /** Every character mapped through `SafeChar`. */
  function SafeChars(title: string): (m: string)
    ensures |m| == |title|
    ensures forall k :: 0 <= k < |m| ==> IsSafe(m[k])
  {
    seq(|title|, i requires 0 <= i < |title| => SafeChar(title[i]))
  }

  lemma TrimKeepsSafe(m: string)
    requires forall k :: 0 <= k < |m| ==> IsSafe(m[k])
    ensures forall k :: 0 <= k < |Trim(m)| ==> IsSafe(Trim(m)[k])
  {
    TrimIsInfix(m);
    var a := |m| - |TrimStart(m)|;
    SliceKeeps(m, a, a + |Trim(m)|, IsSafe);
  }

  /** What holds of every element of `s` holds of every element of a slice
      of it. */
  lemma SliceKeeps<T>(s: seq<T>, a: nat, b: nat, p: T -> bool)
    requires a <= b <= |s|
    requires forall k :: 0 <= k < |s| ==> p(s[k])
    ensures forall k :: 0 <= k < b - a ==> p(s[a..b][k])
  {
    forall k | 0 <= k < b - a
      ensures p(s[a..b][k])
    {
      assert s[a..b][k] == s[a + k];
    }
  }

  /** Sanitising a sanitised name changes nothing. */
  lemma SanitizeIdempotent(title: string)
    ensures SanitizeFilename(SanitizeFilename(title)) == SanitizeFilename(title)
  {
    SanitizeFixed(SanitizeFilename(title));
  }

  /** A name of safe characters with no whitespace at either end is left
      as it is. */
  lemma SanitizeFixed(r: string)
    requires forall k :: 0 <= k < |r| ==> IsSafe(r[k])
    requires r == [] || (!IsWhitespace(r[0]) && !IsWhitespace(r[|r| - 1]))
    ensures SanitizeFilename(r) == r
  {
    SafeCharsFixed(r);
    TrimUnchanged(r);
  }

  /** Mapping a string of safe characters changes nothing. */
  lemma SafeCharsFixed(m: string)
    requires forall k :: 0 <= k < |m| ==> IsSafe(m[k])
    ensures SafeChars(m) == m
  {
    var n := SafeChars(m);
    forall k | 0 <= k < |m|
      ensures n[k] == m[k]
    {
      assert SafeChar(m[k]) == m[k];
    }
  }

  /** `PathBuf::join` of a directory and a file name, for Unix paths: an
      absolute name replaces the directory, otherwise one `/` separates. */
  function JoinPath(dir: string, name: string): string
  {
    if StartsWith(name, "/") || dir == [] then name
    else if dir[|dir| - 1] == '/' then dir + name
    else dir + "/" + name
  }

  /** `conversations_dir.join(format!("{}.md", stem))`. */
  function ConversationPath(dir: string, stem: string): string
  {
    JoinPath(dir, stem + ".md")
  }

  // ---------------------------------------------------------------------
  // The conversation object
  // ---------------------------------------------------------------------

  /** What a failed `fs::write` of `content` leaves in a file that held
      `before`: the old file when it could not be opened, otherwise a prefix
      of `content`, since opening truncates and the write may stop part-way. */
  ghost predicate FailedWrite(before: string, content: string, after: string)
  {
    after == before || (|after| <= |content| && after == content[..|after|])
  }

  /** What a failed append of `chunk` leaves in a file that held `before`:
      the old file followed by a prefix of `chunk`, none of it when the
      open failed. */
  ghost predicate FailedAppend(before: string, chunk: string, after: string)
  {
    before <= after && after[|before|..] <= chunk
  }

  /** The outcome of an `fs::write` of `content` over a file that held
      `before`: success and `content`, or the error and what a failed write
      leaves. */
  ghost predicate WriteOutcome(written: bool, r: Result<(), IoError>, before: string, content: string, after: string)
  {
    if written then r == Ok(()) && after == content
    else r == Err(Failed) && FailedWrite(before, content, after)
  }

  class Conversation {
    var id: string
    var filePath: string
    var messages: seq<Message>
    var title: Option<string>
    /** The bytes of the document stored at `filePath`. */
    var document: string

    /** The document on disk is the one the in-memory state describes. */
    ghost predicate Synced()
      reads this
    {
      document == Document(title, id, messages)
    }

    /** `Conversation::new` on its success path, for a given fresh
        identifier and conversations directory. */
    constructor (id: string, dir: string)
      ensures this.id == id && filePath == ConversationPath(dir, id)
      ensures messages == [] && title == None
      ensures document == Header(None, id) && Synced()
    {
      this.id := id;
      filePath := ConversationPath(dir, id);
      messages := [];
      title := None;
      document := [];
      new;
      var written := WriteHeader(true);
    }

    /** `write_header`: `written` is the outcome of the write. On success the
        document becomes the header alone. */
    method WriteHeader(written: bool) returns (r: Result<(), IoError>)
      modifies this`document
      ensures written ==> r == Ok(()) && document == Header(title, id)
      ensures !written ==> r == Err(Failed) && FailedWrite(old(document), Header(title, id), document)
    {
      var header := if title.Some? then "# " + title.value + "\n\n" else "# Conversation " + id + "\n\n";
      if !written {
        return Err(Failed);
      }
      document := header;
      r := Ok(());
    }

    /** `set_title`: `renamed` and `written` are the outcomes of the rename
        and of the rewrite. The stored title is the one given; only the new
        file name is sanitised. */
    method SetTitle(newTitle: string, dir: string, renamed: bool, written: bool)
      returns (r: Result<(), IoError>)
      modifies this`title, this`filePath, this`document
      ensures id == old(id) && messages == old(messages)
      ensures !renamed ==> r == Err(Failed) && title == old(title)
                           && filePath == old(filePath) && document == old(document)
      ensures renamed ==> title == Some(newTitle)
                          && filePath == ConversationPath(dir, SanitizeFilename(newTitle))
      ensures renamed ==> WriteOutcome(written, r, old(document), Document(Some(newTitle), id, messages), document)
    {
      if !renamed {
        return Err(Failed);
      }
      var newPath := ConversationPath(dir, SanitizeFilename(newTitle));
      title := Some(newTitle);
      filePath := newPath;
      r := RewriteFileWithTitle(written);
    }

    /** `rewrite_file_with_title`: rebuilds the whole document from the
        header and every message; `written` is the outcome of the write. */
    method RewriteFileWithTitle(written: bool) returns (r: Result<(), IoError>)
      modifies this`document
      ensures WriteOutcome(written, r, old(document), Document(title, id, messages), document)
    {
      var content := Header(title, id);
      for i := 0 to |messages|
        invariant content == Header(title, id) + Chunks(messages[..i])
        invariant document == old(document)
      {
        assert messages[..i + 1] == messages[..i] + [messages[i]];
        ChunksSnoc(messages[..i], messages[i]);
        AppendAssoc(Header(title, id), Chunks(messages[..i]), MessageChunk(messages[i]));
        content := content + MessageChunk(messages[i]);
      }
      assert messages[..|messages|] == messages;
      if !written {
        return Err(Failed);
      }
      document := content;
      r := Ok(());
    }

    /** `add_message`: the message is recorded in memory first; `appended`
        is the outcome of opening the file for appending and writing the
        chunk. An append to a synchronised document keeps it synchronised. */
    method AddMessage(role: string, content: string, appended: bool) returns (r: Result<(), IoError>)
      modifies this`messages, this`document
      ensures messages == old(messages) + [Message(role, content)]
      ensures appended ==> r == Ok(()) && document == old(document) + MessageChunk(Message(role, content))
      ensures !appended ==> r == Err(Failed) && FailedAppend(old(document), MessageChunk(Message(role, content)), document)
      ensures appended && old(Synced()) ==> Synced()
    {
      messages := messages + [Message(role, content)];
      var chunk := MessageChunk(Message(role, content));
      if !appended {
        assert document[|document|..] == [];
        return Err(Failed);
      }
      ChunksSnoc(old(messages), Message(role, content));
      AppendAssoc(Header(title, id), Chunks(old(messages)), chunk);
      document := document + chunk;
      r := Ok(());
    }
  }

  // ---------------------------------------------------------------------
  // Finding a conversation file by substring
  // ---------------------------------------------------------------------

  /** One item of a `read_dir` iteration: a path, or an entry that could
      not be read. */
  datatype DirEntry = Entry(path: string) | Unreadable

  /** The pieces of a `/`-separated path that `Path::components` reports
      as names: empty pieces and `.` are skipped. */
  function NamedComponents(pieces: seq<string>): seq<string>
    decreases |pieces|
  {
    if pieces == [] then []
    else if pieces[0] == [] || pieces[0] == "." then NamedComponents(pieces[1..])
    else [pieces[0]] + NamedComponents(pieces[1..])
  }

  function Components(path: string): seq<string>
  {
    NamedComponents(SplitOn(path, '/'))
  }

  /** `Path::ends_with(name)` for a one-component `name`: whole components
      are compared, so `"c/abc.md"` does not end with `"md"`. */
  predicate EndsWithComponent(path: string, name: string)
  {
    var cs := Components(path);
    |cs| > 0 && cs[|cs| - 1] == name
  }

  /** The filter `find_conversation_file` applies, `path.ends_with("md")`. */
  predicate EndsWithMd(path: string)
  {
    EndsWithComponent(path, "md")
  }

  /** Index of the last `c` in `s`, or -1 when there is none. */
  function LastIndexOf(s: string, c: char): (k: int)
    ensures -1 <= k < |s|
    ensures k >= 0 ==> s[k] == c
    ensures forall j :: k < j < |s| ==> s[j] != c
    decreases |s|
  {
    if s == [] then -1 else if s[|s| - 1] == c then |s| - 1 else LastIndexOf(s[..|s| - 1], c)
  }

  /** `path.extension() == Some("md")`: the last component, unless it is
      `..`, has a `.` after its first character, and `md` follows its last
      `.`. */
  predicate HasMdExtension(path: string)
  {
    var cs := Components(path);
    |cs| > 0 &&
      var name := cs[|cs| - 1];
      var dot := LastIndexOf(name, '.');
      name != ".." && dot > 0 && name[dot + 1..] == "md"
  }

  predicate Selected(path: string, id: string, keep: string -> bool)
  {
    keep(path) && Contains(path, id)
  }

  /** The entries before `k` were all read and all rejected. */
  predicate PassedOver(entries: seq<DirEntry>, k: nat, id: string, keep: string -> bool)
    requires k <= |entries|
  {
    forall j :: 0 <= j < k ==> entries[j].Entry? && !Selected(entries[j].path, id, keep)
  }

  /** The first entry, in iteration order, that passes `keep` and contains
      `id`; an unreadable entry met before it is an error, and running out
      of entries is `NotFound`. */
  function FirstMatch(entries: seq<DirEntry>, id: string, keep: string -> bool): (r: Result<string, IoError>)
    ensures r.Ok? ==> exists k :: 0 <= k < |entries| && entries[k] == Entry(r.value)
                                  && Selected(r.value, id, keep) && PassedOver(entries, k, id, keep)
    ensures r == Err(NotFound) <==> PassedOver(entries, |entries|, id, keep)
    ensures r == Err(Failed) ==> exists k :: 0 <= k < |entries| && entries[k] == Unreadable
                                          && PassedOver(entries, k, id, keep)
    decreases |entries|
  {
    if entries == [] then Err(NotFound)
    else match entries[0]
      case Unreadable => Err(Failed)
      case Entry(p) =>
        if Selected(p, id, keep) then Ok(p)
        else
          var r := FirstMatch(entries[1..], id, keep);
          assert forall k :: 0 <= k < |entries| - 1 ==>
            (PassedOver(entries[1..], k, id, keep) <==> PassedOver(entries, k + 1, id, keep));
          r
  }

  /** `find_conversation_file`, as written, over a given directory listing;
      `listed` is the outcome of `read_dir`. */
  method FindConversationFile(listed: bool, entries: seq<DirEntry>, id: string) returns (r: Result<string, IoError>)
    ensures !listed ==> r == Err(Failed)
    ensures listed ==> r == FirstMatch(entries, id, EndsWithMd)
  {
    if !listed {
      return Err(Failed);
    }
    for i := 0 to |entries|
      invariant FirstMatch(entries[i..], id, EndsWithMd) == FirstMatch(entries, id, EndsWithMd)
    {
      assert entries[i..][1..] == entries[i + 1..];
      match entries[i]
      case Unreadable =>
        return Err(Failed);
      case Entry(path) =>
        if EndsWithMd(path) && Contains(path, id) {
          return Ok(path);
        }
    }
    return Err(NotFound);
  }

  /** The search with the filter evidently intended, `extension() == "md"`:
      it returns a readable `.md` path containing `id` exactly when one
      comes before any unreadable entry, and the first such path. */
  function FindConversationFileByExtension(entries: seq<DirEntry>, id: string): (r: Result<string, IoError>)
    ensures r.Ok? ==> HasMdExtension(r.value) && Contains(r.value, id)
    ensures r.Ok? ==> exists k :: 0 <= k < |entries| && entries[k] == Entry(r.value)
                                  && PassedOver(entries, k, id, HasMdExtension)
    ensures r == Err(NotFound) <==> forall k :: 0 <= k < |entries| ==>
                                      entries[k].Entry? && !(HasMdExtension(entries[k].path) && Contains(entries[k].path, id))
  {
    FirstMatch(entries, id, HasMdExtension)
  }

  /** The filter as written never accepts an ordinary conversation file:
      `c/abc.md` has the extension `md` and contains `abc`, yet the search
      as written reports `NotFound` while the intended one finds it. */
  lemma FindMissesMarkdownFiles()
    ensures HasMdExtension("c/abc.md") && Contains("c/abc.md", "abc")
    ensures FirstMatch([Entry("c/abc.md")], "abc", EndsWithMd) == Err(NotFound)
    ensures FindConversationFileByExtension([Entry("c/abc.md")], "abc") == Ok("c/abc.md")
  {
    ExampleComponents();
    ExampleExtension();
    ExampleContains();
  }

  lemma ExampleContains()
    ensures Contains("c/abc.md", "abc")
  {
    var p := "c/abc.md";
    assert StartsWith(p[1..][1..], "abc");
  }

  lemma ExampleComponents()
    ensures Components("c/abc.md") == ["c", "abc.md"]
  {
    ExamplePieces();
    ComponentsOfTwo("c", "abc.md");
  }

  /** Two named pieces make two components. */
  lemma ComponentsOfTwo(a: string, b: string)
    requires a != [] && a != "." && b != [] && b != "."
    ensures NamedComponents([a, b]) == [a, b]
  {
    assert [a, b][1..] == [b];
    assert NamedComponents([b]) == [b] + NamedComponents([]);
  }

  lemma ExamplePieces()
    ensures SplitOn("c/abc.md", '/') == ["c", "abc.md"]
  {
    assert "c/abc.md" == "c" + ['/'] + "abc.md";
    SplitOnTwo("c", "abc.md", '/');
  }

  /** Two pieces joined by one separator split back into those pieces. */
  lemma SplitOnTwo(a: string, b: string, sep: char)
    requires sep !in a && sep !in b
    ensures SplitOn(a + [sep] + b, sep) == [a, b]
  {
    var s := a + [sep] + b;
    IndexOfIs(s, sep, |a|);
    assert s[..|a|] == a && s[|a| + 1..] == b;
    IndexOfIs(b, sep, |b|);
  }

  lemma ExampleExtension()
    ensures LastIndexOf("abc.md", '.') == 3 && "abc.md"[4..] == "md"
  {
  }

  // ---------------------------------------------------------------------
  // The reader
  // ---------------------------------------------------------------------

  /** The role a line opens a section for: a line starting with `"## You"`
      opens a user turn, one starting with `"## Assistant"` an assistant
      turn. */
  function HeadingRole(line: string): (r: Option<string>)
    ensures r.Some? ==> StartsWith(line, "## ") && (r.value == "user" || r.value == "assistant")
  {
    if StartsWith(line, "## You") then Some("user")
    else if StartsWith(line, "## Assistant") then Some("assistant")
    else None
  }

  /** Where the section body starting at `j` ends: the first line from `j`
      on that starts with `"## "`, or the end of the lines. */
  function SectionEnd(lines: seq<string>, j: nat): (e: nat)
    requires j <= |lines|
    ensures j <= e <= |lines|
    decreases |lines| - j
  {
    if j == |lines| || StartsWith(lines[j], "## ") then j else SectionEnd(lines, j + 1)
  }

  /** A section runs up to, and not including, the next line that starts
      with `"## "`. */
  lemma {:induction false} SectionEndStops(lines: seq<string>, j: nat)
    requires j <= |lines|
    ensures forall k :: j <= k < SectionEnd(lines, j) ==> !StartsWith(lines[k], "## ")
    ensures SectionEnd(lines, j) < |lines| ==> StartsWith(lines[SectionEnd(lines, j)], "## ")
    decreases |lines| - j
  {
    if j < |lines| && !StartsWith(lines[j], "## ") {
      SectionEndStops(lines, j + 1);
    }
  }

  function DropLeadingBlank(ls: seq<string>): (r: seq<string>)
    ensures |r| <= |ls| && r == ls[|ls| - |r|..]
    ensures r == [] || !IsBlank(r[0])
    decreases |ls|
  {
    if ls != [] && IsBlank(ls[0]) then DropLeadingBlank(ls[1..]) else ls
  }

  function DropTrailingBlank(ls: seq<string>): (r: seq<string>)
    ensures |r| <= |ls| && r == ls[..|r|]
    ensures r == [] || !IsBlank(r[|r| - 1])
    decreases |ls|
  {
    if ls != [] && IsBlank(ls[|ls| - 1]) then DropTrailingBlank(ls[..|ls| - 1]) else ls
  }

  lemma DropLeadingStep(ls: seq<string>)
    requires ls != [] && IsBlank(ls[0])
    ensures DropLeadingBlank(ls[1..]) == DropLeadingBlank(ls)
  {
  }

  lemma DropTrailingStep(ls: seq<string>)
    requires ls != [] && IsBlank(ls[|ls| - 1])
    ensures DropTrailingBlank(ls[..|ls| - 1]) == DropTrailingBlank(ls)
  {
  }

  /** A section body without its leading and trailing blank lines: empty,
      or a run of lines that starts and ends with a non-blank line. */
  function TrimBlankLines(ls: seq<string>): (r: seq<string>)
    ensures r == [] || (!IsBlank(r[0]) && !IsBlank(r[|r| - 1]))
  {
    DropTrailingBlank(DropLeadingBlank(ls))
  }

  lemma {:induction false} DropLeadingBlankCuts(ls: seq<string>)
    ensures forall k :: 0 <= k < |ls| - |DropLeadingBlank(ls)| ==> IsBlank(ls[k])
    decreases |ls|
  {
    if ls != [] && IsBlank(ls[0]) {
      DropLeadingBlankCuts(ls[1..]);
    }
  }

  lemma {:induction false} DropTrailingBlankCuts(ls: seq<string>)
    ensures forall k :: |DropTrailingBlank(ls)| <= k < |ls| ==> IsBlank(ls[k])
    decreases |ls|
  {
    if ls != [] && IsBlank(ls[|ls| - 1]) {
      DropTrailingBlankCuts(ls[..|ls| - 1]);
    }
  }

  /** `TrimBlankLines` keeps a contiguous run of its input. */
  lemma TrimBlankLinesInfix(ls: seq<string>)
    ensures var r := TrimBlankLines(ls);
            var a := |ls| - |DropLeadingBlank(ls)|;
            a + |r| <= |ls| && forall k :: 0 <= k < |r| ==> r[k] == ls[a + k]
  {
  }

  /** `TrimBlankLines` keeps a contiguous run of its input and cuts away
      only blank lines around it. */
  lemma {:induction false} TrimBlankLinesCuts(ls: seq<string>)
    ensures forall k :: 0 <= k < |ls| - |DropLeadingBlank(ls)| ==> IsBlank(ls[k])
    ensures var r := TrimBlankLines(ls);
            var a := |ls| - |DropLeadingBlank(ls)|;
            a + |r| <= |ls| && r == ls[a..a + |r|]
            && (forall k :: a + |r| <= k < |ls| ==> IsBlank(ls[k]))
  {
    var d := DropLeadingBlank(ls);
    var r := DropTrailingBlank(d);
    var a := |ls| - |d|;
    DropLeadingBlankCuts(ls);
    TrailingBlanksCut(ls);
    SliceOfSuffix(ls, d, r, a);
  }

  /** The lines `TrimBlankLines` cuts after its result are blank. */
  lemma {:induction false} TrailingBlanksCut(ls: seq<string>)
    ensures var a := |ls| - |DropLeadingBlank(ls)|;
            forall k :: a + |TrimBlankLines(ls)| <= k < |ls| ==> IsBlank(ls[k])
  {
    var d := DropLeadingBlank(ls);
    DropTrailingBlankCuts(d);
    SuffixKeeps(ls, |ls| - |d|, |DropTrailingBlank(d)|, IsBlank);
  }

  /** What holds from `lo` on in the suffix of `s` at `a` holds from
      `a + lo` on in `s`. */
  lemma SuffixKeeps<T>(s: seq<T>, a: nat, lo: nat, p: T -> bool)
    requires a <= |s|
    requires forall k :: lo <= k < |s| - a ==> p(s[a..][k])
    ensures forall k :: a + lo <= k < |s| ==> p(s[k])
  {
    forall k | a + lo <= k < |s|
      ensures p(s[k])
    {
      assert s[a..][k - a] == s[k];
    }
  }

  /** A prefix of the suffix of `s` at `a` is a slice of `s`. */
  lemma SliceOfSuffix<T>(s: seq<T>, d: seq<T>, r: seq<T>, a: nat)
    requires a <= |s| && d == s[a..] && |r| <= |d| && r == d[..|r|]
    ensures a + |r| <= |s| && r == s[a..a + |r|]
  {
  }

  /** The turn a heading with `role` over the lines `section` yields: none
      when the section holds blank lines only. */
  function Turn(role: string, section: seq<string>): seq<Message>
  {
    var body := TrimBlankLines(section);
    if body == [] then [] else [Message(role, Join(body))]
  }

  /** The turns found scanning `lines` from `i` on, in document order. */
  function SectionsFrom(lines: seq<string>, i: nat): seq<Message>
    requires i <= |lines|
    decreases |lines| - i
  {
    if i == |lines| then []
    else if HeadingRole(lines[i]).None? then SectionsFrom(lines, i + 1)
    else
      var next := SectionEnd(lines, i + 1);
      Turn(HeadingRole(lines[i]).value, lines[i + 1..next]) + SectionsFrom(lines, next)
  }

  /** The title a document's first line gives, if any. */
  function TitleOf(lines: seq<string>): (r: Option<string>)
    ensures r.Some? ==> |lines| > 0 && StartsWith(lines[0], "# ")
                        && !StartsWith(r.value, "Conversation ")
  {
    if |lines| > 0 && StartsWith(lines[0], "# ") then
      var t := Trim(TrimStartMatches(lines[0], "# "));
      if StartsWith(t, "Conversation ") then None else Some(t)
    else None
  }

  /** The first line is skipped whenever it starts with `"# "`. */
  function BodyStart(lines: seq<string>): nat
  {
    if |lines| > 0 && StartsWith(lines[0], "# ") then 1 else 0
  }

  datatype Parsed = Parsed(messages: seq<Message>, title: Option<string>)

  /** What `parse_markdown_conversation` computes for a document. */
  function ParseConversation(content: string): Parsed
  {
    var lines := Lines(content);
    Parsed(SectionsFrom(lines, BodyStart(lines)), TitleOf(lines))
  }

  /** Content whose first and last lines (split at `'\n'`) are not blank;
      in particular it is not empty. */
  predicate TrimmedContent(c: string)
  {
    var ps := Pieces(c);
    !IsBlank(ps[0]) && !IsBlank(ps[|ps| - 1])
  }

  /** Content with no line the reader would take for a section heading. */
  predicate NoHeadingLine(c: string)
  {
    forall p :: p in Pieces(c) ==> !StartsWith(p, "## ")
  }

  /** What a turn read back from any document looks like. */
  predicate Recovered(m: Message)
  {
    (m.role == "user" || m.role == "assistant") && TrimmedContent(m.content) && NoHeadingLine(m.content)
  }

  /** A turn read from lines with no heading among them is recovered. */
  lemma {:induction false} TurnRecovered(role: string, section: seq<string>)
    requires role == "user" || role == "assistant"
    requires forall k :: 0 <= k < |section| ==> '\n' !in section[k] && !StartsWith(section[k], "## ")
    ensures forall m :: m in Turn(role, section) ==> Recovered(m)
  {
    var body := TrimBlankLines(section);
    if body != [] {
      TrimmedLinesPlain(section);
      JoinRecovered(role, body);
    }
  }

  /** A line with no `'\n'` that the reader does not take for a heading. */
  predicate PlainLine(l: string)
  {
    '\n' !in l && !StartsWith(l, "## ")
  }

  /** The trimmed body keeps what holds of every line of the section. */
  lemma {:induction false} TrimmedLinesPlain(section: seq<string>)
    requires forall k :: 0 <= k < |section| ==> PlainLine(section[k])
    ensures var body := TrimBlankLines(section);
            forall k :: 0 <= k < |body| ==> PlainLine(body[k])
  {
    TrimBlankLinesInfix(section);
    InfixKeeps(section, TrimBlankLines(section), |section| - |DropLeadingBlank(section)|, PlainLine);
  }

  /** What holds of every element of `s` holds of every element of a run
      taken from it. */
  lemma InfixKeeps<T>(s: seq<T>, r: seq<T>, a: nat, p: T -> bool)
    requires a + |r| <= |s| && forall k :: 0 <= k < |r| ==> r[k] == s[a + k]
    requires forall k :: 0 <= k < |s| ==> p(s[k])
    ensures forall k :: 0 <= k < |r| ==> p(r[k])
  {
    forall k | 0 <= k < |r|
      ensures p(r[k])
    {
      assert r[k] == s[a + k];
    }
  }

  /** Non-blank first and last lines, none of them a heading, joined into
      one turn's content. */
  lemma JoinRecovered(role: string, body: seq<string>)
    requires role == "user" || role == "assistant"
    requires |body| > 0 && !IsBlank(body[0]) && !IsBlank(body[|body| - 1])
    requires forall k :: 0 <= k < |body| ==> '\n' !in body[k] && !StartsWith(body[k], "## ")
    ensures Recovered(Message(role, Join(body)))
  {
    PiecesJoin(body);
    forall p | p in Pieces(Join(body)) ensures !StartsWith(p, "## ") {
      var k :| 0 <= k < |body| && body[k] == p;
    }
  }

  /** Every turn the reader emits has a known role and non-empty content
      with neither leading nor trailing blank lines nor heading lines. */
  lemma {:induction false} SectionsRecovered(lines: seq<string>, i: nat)
    requires i <= |lines|
    requires forall k :: 0 <= k < |lines| ==> '\n' !in lines[k]
    ensures forall m :: m in SectionsFrom(lines, i) ==> Recovered(m)
    decreases |lines| - i
  {
    if i < |lines| {
      var role := HeadingRole(lines[i]);
      if role.None? {
        SectionsRecovered(lines, i + 1);
      } else {
        var next := SectionEnd(lines, i + 1);
        SectionEndStops(lines, i + 1);
        TurnRecovered(role.value, lines[i + 1..next]);
        SectionsRecovered(lines, next);
      }
    }
  }

  /** `parse_markdown_conversation`: reads the title line, then scans the
      remaining lines for `## You` and `## Assistant` sections. */
  method ParseMarkdownConversation(content: string) returns (messages: seq<Message>, title: Option<string>)
    ensures Parsed(messages, title) == ParseConversation(content)
    ensures forall m :: m in messages ==> Recovered(m)
  {
    messages := [];
    var lines := Lines(content);
    var i;
    title, i := ReadTitle(lines);
    ghost var all := SectionsFrom(lines, i);
    assert messages + all == all;
    while i < |lines|
      invariant i <= |lines|
      invariant all == messages + SectionsFrom(lines, i)
    {
      var found, next := ScanLine(lines, i);
      AppendAssoc(messages, found, SectionsFrom(lines, next));
      messages := messages + found;
      i := next;
    }
    assert messages + SectionsFrom(lines, i) == messages;
    LinesHaveNoNewline(content);
    SectionsRecovered(lines, BodyStart(lines));
  }

  /** One pass of the scan loop of `parse_markdown_conversation` at line
      `i`: a `## You` or `## Assistant` heading reads its section and yields
      the turn, if the section is not blank; any other line is passed over. */
  method ScanLine(lines: seq<string>, i: nat) returns (found: seq<Message>, next: nat)
    requires i < |lines|
    ensures i < next <= |lines|
    ensures SectionsFrom(lines, i) == found + SectionsFrom(lines, next)
  {
    if StartsWith(lines[i], "## You") {
      found, next := ReadTurn(lines, i, "user");
    } else if StartsWith(lines[i], "## Assistant") {
      found, next := ReadTurn(lines, i, "assistant");
    } else {
      found := [];
      next := i + 1;
    }
  }

  /** The two heading branches of the scan, which differ only in the role:
      collect and trim the section after the heading, and push the turn
      unless nothing is left. */
  method ReadTurn(lines: seq<string>, i: nat, role: string) returns (found: seq<Message>, next: nat)
    requires i < |lines| && HeadingRole(lines[i]) == Some(role)
    ensures i < next <= |lines| && next == SectionEnd(lines, i + 1)
    ensures found == Turn(role, lines[i + 1..next])
    ensures SectionsFrom(lines, i) == found + SectionsFrom(lines, next)
  {
    var section;
    section, next := ReadSection(lines, i + 1);
    TurnStep(lines, i, next, section);
    found := [];
    if |section| > 0 {
      found := [Message(role, Join(section))];
    }
  }

  /** The title step of `parse_markdown_conversation`: a first line
      starting with `"# "` is skipped, and gives the title unless it is the
      placeholder `Conversation <id>`. */
  method ReadTitle(lines: seq<string>) returns (title: Option<string>, start: nat)
    ensures title == TitleOf(lines) && start == BodyStart(lines)
  {
    title := None;
    start := 0;
    if |lines| > 0 && StartsWith(lines[0], "# ") {
      var titleText := Trim(TrimStartMatches(lines[0], "# "));
      if !StartsWith(titleText, "Conversation ") {
        title := Some(titleText);
      }
      start := 1;
    }
  }

  /** How `SectionsFrom` advances over a heading line at `i` whose
      section, trimmed, is `section`. */
  lemma TurnStep(lines: seq<string>, i: nat, next: nat, section: seq<string>)
    requires i < |lines| && HeadingRole(lines[i]).Some?
    requires next == SectionEnd(lines, i + 1)
    requires section == TrimBlankLines(lines[i + 1..next])
    ensures |section| > 0 ==> SectionsFrom(lines, i)
                              == [Message(HeadingRole(lines[i]).value, Join(section))] + SectionsFrom(lines, next)
    ensures |section| == 0 ==> SectionsFrom(lines, i) == [] + SectionsFrom(lines, next)
  {
  }

  /** The inner loops of `parse_markdown_conversation`: collect the lines of
      one section, then drop blank lines from its front and its back. */
  method ReadSection(lines: seq<string>, start: nat) returns (section: seq<string>, next: nat)
    requires start <= |lines|
    ensures next == SectionEnd(lines, start)
    ensures section == TrimBlankLines(lines[start..next])
  {
    next := start;
    section := [];
    while next < |lines| && !StartsWith(lines[next], "## ")
      invariant start <= next <= |lines|
      invariant section == lines[start..next]
      invariant SectionEnd(lines, start) == SectionEnd(lines, next)
    {
      section := section + [lines[next]];
      next := next + 1;
    }
    ghost var collected := section;
    while |section| > 0 && IsBlank(section[0])
      invariant DropLeadingBlank(section) == DropLeadingBlank(collected)
    {
      DropLeadingStep(section);
      section := section[1..];
    }
    ghost var leading := section;
    while |section| > 0 && IsBlank(section[|section| - 1])
      invariant DropTrailingBlank(section) == DropTrailingBlank(leading)
    {
      DropTrailingStep(section);
      section := section[..|section| - 1];
    }
  }
}
