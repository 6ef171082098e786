/** The streaming block splitter of `stream_and_render_response`: a response
    arrives as chunks of text; the splitter cuts it into lines and decides,
    line by line, when a Markdown block is complete and can be rendered. A
    block ends at a blank line, at a `#` heading (rendered alone) and at a
    closing ``` fence; inside a fence nothing is rendered until it closes. */
module Streaming {
  import opened Text

  /** What the splitter hands to the terminal: a block given to
      `render_markdown`, or the empty line `println!()` prints in place of a
      whitespace-only input line (the line it replaces is kept, so that the
      text can be accounted for). */
  datatype Event = Block(text: string) | Separator(line: string)

  /** One item of the response stream. */
  datatype Item = Chunk(text: string) | Failure(message: string)

  /** The splitter between two characters: what it has emitted, the partial
      `current_line`, the pending `buffer` and `in_code_block`. */
  datatype Splitter = Splitter(events: seq<Event>, line: string, buffer: string, inCode: bool)

  const Start := Splitter([], [], [], false)

  predicate IsFence(trimmed: string)
  {
    StartsWith(trimmed, "```")
  }

  predicate IsHeading(trimmed: string)
  {
    StartsWith(trimmed, "#")
  }

  /** `char::is_numeric`, restricted to the ASCII digits. */
  predicate IsNumeric(c: char)
  {
    '0' <= c <= '9'
  }

  /** `is_list_item`: a bullet marker, or a numeral and a dot in a text of
      more than two bytes. */
  function IsListItem(trimmed: string): (r: bool)
    ensures r ==> trimmed != []
    ensures trimmed != [] && trimmed[0] in "-*+" ==> r
    ensures r && !(trimmed[0] in "-*+") ==> |trimmed| >= 2 && IsNumeric(trimmed[0]) && trimmed[1] == '.'
  {
    StartsWith(trimmed, "-") || StartsWith(trimmed, "*") || StartsWith(trimmed, "+")
    || (Utf8Length(trimmed) > 2 && IsNumeric(trimmed[0]) && |trimmed| > 1 && trimmed[1] == '.')
  }

  predicate IsAscii(s: string)
  {
    forall k :: 0 <= k < |s| ==> s[k] < '\U{0080}'
  }

  lemma {:induction false} AsciiLength(s: string)
    requires IsAscii(s)
    ensures Utf8Length(s) == |s|
    decreases |s|
  {
    if s != [] {
      AsciiLength(s[1..]);
    }
  }

  /** On ASCII text the byte-length guard of `is_list_item` asks for at
      least three characters: `"1."` is not a list item, `"1.x"` is. */
  lemma NumberedItem(trimmed: string)
    requires IsAscii(trimmed) && trimmed != [] && !(trimmed[0] in "-*+")
    ensures IsListItem(trimmed) <==> |trimmed| >= 3 && IsNumeric(trimmed[0]) && trimmed[1] == '.'
  {
    AsciiLength(trimmed);
  }

  /** The events that flush a pending block: none when it is empty. */
  function Flush(buffer: string): (r: seq<Event>)
    ensures |r| <= 1
    ensures forall e :: e in r ==> e == Block(buffer) && buffer != []
  {
    if buffer == [] then [] else [Block(buffer)]
  }

  /** What a completed line does, its `'\n'` included; the line is cleared
      afterwards. List items and prose take the same branch. */
  function CompleteLine(st: Splitter): Splitter
  {
    var line := st.line;
    var trimmed := Trim(line);
    if IsFence(trimmed) then
      if st.inCode then Splitter(st.events + [Block(st.buffer + line)], [], [], false)
      else Splitter(st.events + Flush(st.buffer), [], line, true)
    else if st.inCode then Splitter(st.events, [], st.buffer + line, true)
    else if trimmed == [] then Splitter(st.events + Flush(st.buffer) + [Separator(line)], [], [], false)
    else if IsHeading(trimmed) then Splitter(st.events + Flush(st.buffer) + [Block(line)], [], [], false)
    else if IsListItem(trimmed) then Splitter(st.events, [], st.buffer + line, false)
    else Splitter(st.events, [], st.buffer + line, false)
  }

  /** One character of the stream. */
  function Step(st: Splitter, c: char): Splitter
  {
    var grown := st.(line := st.line + [c]);
    if c == '\n' then CompleteLine(grown) else grown
  }

  /** A text, character by character. */
  function Feed(st: Splitter, s: string): Splitter
    decreases |s|
  {
    if s == [] then st else Feed(Step(st, s[0]), s[1..])
  }

  /** The end of the stream: the partial line joins the buffer, and a
      non-empty buffer is rendered, even inside an unclosed fence. */
  function Drained(st: Splitter): (r: seq<Event>)
    ensures |st.events| <= |r| <= |st.events| + 1 && r[..|st.events|] == st.events
  {
    var rest := if st.line != [] then st.buffer + st.line else st.buffer;
    st.events + Flush(rest)
  }

  /** The text of the `Ok` chunks that arrive before the first error. */
  function Received(items: seq<Item>): string
    decreases |items|
  {
    if items == [] || items[0].Failure? then [] else items[0].text + Received(items[1..])
  }

  /** Everything the splitter does with a stream. */
  function Split(items: seq<Item>): seq<Event>
  {
    Drained(Feed(Start, Received(items)))
  }

  // ---------------------------------------------------------------------
  // Accounting for the text
  // ---------------------------------------------------------------------

  function EventText(e: Event): string
  {
    match e
    case Block(t) => t
    case Separator(l) => l
  }

  /** The emitted text, each separator standing for the line it replaced. */
  function Flatten(es: seq<Event>): string
    decreases |es|
  {
    if es == [] then [] else Flatten(es[..|es| - 1]) + EventText(es[|es| - 1])
  }

  lemma FlattenSnoc(es: seq<Event>, e: Event)
    ensures Flatten(es + [e]) == Flatten(es) + EventText(e)
  {
    assert (es + [e])[..|es|] == es;
  }

  lemma FlattenFlush(es: seq<Event>, b: string)
    ensures Flatten(es + Flush(b)) == Flatten(es) + b
  {
    if b != [] {
      FlattenSnoc(es, Block(b));
    } else {
      assert es + Flush(b) == es;
    }
  }

  /** The text the splitter has taken in: emitted, pending or partial. */
  function Seen(st: Splitter): string
  {
    Flatten(st.events) + st.buffer + st.line
  }

  lemma AppendEmpty<T>(x: seq<T>)
    ensures x + [] == x
  {
  }

  lemma CompleteLineConserves(st: Splitter)
    ensures Seen(CompleteLine(st)) == Seen(st)
  {
    var line, b := st.line, st.buffer;
    var trimmed := Trim(line);
    var r := CompleteLine(st);
    var front := Flatten(st.events);
    if IsFence(trimmed) && st.inCode {
      FlattenSnoc(st.events, Block(b + line));
      AppendEmpty(front + (b + line));
      AppendAssoc(front, b, line);
    } else if IsFence(trimmed) {
      FlattenFlush(st.events, b);
      AppendEmpty(front + b + line);
    } else if st.inCode || (trimmed != [] && !IsHeading(trimmed)) {
      assert r.events == st.events && r.buffer == b + line && r.line == [];
      AppendEmpty(front + (b + line));
      AppendAssoc(front, b, line);
    } else {
      var f := st.events + Flush(b);
      FlattenFlush(st.events, b);
      var e := if trimmed == [] then Separator(line) else Block(line);
      assert r.events == f + [e] && r.buffer == [] && r.line == [];
      FlattenSnoc(f, e);
      AppendEmpty(front + b + line);
    }
  }

  lemma StepConserves(st: Splitter, c: char)
    ensures Seen(Step(st, c)) == Seen(st) + [c]
  {
    var grown := st.(line := st.line + [c]);
    AppendAssoc(Flatten(st.events) + st.buffer, st.line, [c]);
    if c == '\n' {
      CompleteLineConserves(grown);
    }
  }

  /** Feeding text only moves it along: nothing is lost or invented. */
  lemma {:induction false} FeedConserves(st: Splitter, s: string)
    ensures Seen(Feed(st, s)) == Seen(st) + s
    decreases |s|
  {
    if s != [] {
      StepConserves(st, s[0]);
      FeedConserves(Step(st, s[0]), s[1..]);
      AppendAssoc(Seen(st), [s[0]], s[1..]);
      assert [s[0]] + s[1..] == s;
    }
  }

  /** After the end of the stream nothing is held back. */
  lemma DrainedConserves(st: Splitter)
    ensures Flatten(Drained(st)) == Seen(st)
  {
    var rest := if st.line != [] then st.buffer + st.line else st.buffer;
    FlattenFlush(st.events, rest);
  }

  // ---------------------------------------------------------------------
  // What the splitter never does
  // ---------------------------------------------------------------------

  /** No block is empty, and a separator only replaces a whitespace-only line. */
  predicate Emittable(e: Event)
  {
    match e
    case Block(t) => t != []
    case Separator(l) => Trim(l) == []
  }

  /** The state the splitter keeps between characters: only sound events,
      no completed line held in `current_line`, and an open fence is always
      pending in the buffer. */
  predicate Good(st: Splitter)
  {
    (forall e :: e in st.events ==> Emittable(e))
    && '\n' !in st.line
    && (st.inCode ==> st.buffer != [])
  }

  lemma CompleteLineGood(st: Splitter)
    requires forall e :: e in st.events ==> Emittable(e)
    requires st.inCode ==> st.buffer != []
    requires st.line != []
    ensures Good(CompleteLine(st))
  {
    var line, b := st.line, st.buffer;
    var trimmed := Trim(line);
    var flushed := st.events + Flush(b);
    assert forall e :: e in flushed ==> Emittable(e);
    if IsFence(trimmed) && st.inCode {
      assert Emittable(Block(b + line));
    } else if !IsFence(trimmed) && !st.inCode && trimmed == [] {
      assert Emittable(Separator(line));
      assert CompleteLine(st).events == flushed + [Separator(line)];
    } else if !IsFence(trimmed) && !st.inCode && IsHeading(trimmed) {
      assert CompleteLine(st).events == flushed + [Block(line)];
    }
  }

  lemma StepGood(st: Splitter, c: char)
    requires Good(st)
    ensures Good(Step(st, c))
  {
    if c == '\n' {
      CompleteLineGood(st.(line := st.line + [c]));
    }
  }

  lemma {:induction false} FeedGood(st: Splitter, s: string)
    requires Good(st)
    ensures Good(Feed(st, s))
    decreases |s|
  {
    if s != [] {
      StepGood(st, s[0]);
      FeedGood(Step(st, s[0]), s[1..]);
    }
  }

  lemma DrainedGood(st: Splitter)
    requires Good(st)
    ensures forall e :: e in Drained(st) ==> Emittable(e)
  {
  }

  // ---------------------------------------------------------------------
  // Line by line
  // ---------------------------------------------------------------------

  /** How the stream is cut into chunks does not matter. */
  lemma {:induction false} FeedAppend(st: Splitter, a: string, b: string)
    ensures Feed(st, a + b) == Feed(Feed(st, a), b)
    decreases |a|
  {
    if a != [] {
      assert (a + b)[0] == a[0];
      assert (a + b)[1..] == a[1..] + b;
      FeedAppend(Step(st, a[0]), a[1..], b);
    } else {
      assert a + b == b;
    }
  }

  /** Characters before the end of a line only grow `current_line`. */
  lemma {:induction false} FeedPartial(st: Splitter, s: string)
    requires '\n' !in s
    ensures Feed(st, s) == st.(line := st.line + s)
    decreases |s|
  {
    if s != [] {
      assert s == [s[0]] + s[1..];
      FeedPartial(Step(st, s[0]), s[1..]);
      AppendAssoc(st.line, [s[0]], s[1..]);
    }
  }

  /** A whole line takes the state through `CompleteLine` once. */
  lemma FeedLine(st: Splitter, l: string)
    requires '\n' !in l && st.line == []
    ensures Feed(st, l + "\n") == CompleteLine(st.(line := l + "\n"))
  {
    FeedAppend(st, l, "\n");
    FeedPartial(st, l);
    var mid := st.(line := st.line + l);
    assert mid.line == l;
    assert Feed(mid, "\n") == Step(mid, '\n');
  }

  /** A closing fence emits the pending block with the fence line. */
  lemma FenceCloses(st: Splitter, l: string)
    requires '\n' !in l && st.line == [] && st.inCode
    requires IsFence(Trim(l + "\n"))
    ensures Feed(st, l + "\n") == Splitter(st.events + [Block(st.buffer + l + "\n")], [], [], false)
  {
    FeedLine(st, l);
    AppendAssoc(st.buffer, l, "\n");
  }

  /** An opening fence flushes what is pending and starts a new block with
      the fence line. */
  lemma FenceOpens(st: Splitter, l: string)
    requires '\n' !in l && st.line == [] && !st.inCode
    requires IsFence(Trim(l + "\n"))
    ensures Feed(st, l + "\n") == Splitter(st.events + Flush(st.buffer), [], l + "\n", true)
  {
    FeedLine(st, l);
  }

  /** Inside a fence every other line, blank lines and headings included,
      joins the block and nothing is emitted. */
  lemma FenceSuspends(st: Splitter, l: string)
    requires '\n' !in l && st.line == [] && st.inCode
    requires !IsFence(Trim(l + "\n"))
    ensures Feed(st, l + "\n") == Splitter(st.events, [], st.buffer + l + "\n", true)
  {
    FeedLine(st, l);
    AppendAssoc(st.buffer, l, "\n");
  }

  /** Outside a fence a whitespace-only line flushes what is pending and
      prints a separator. */
  lemma BlankLineSeparates(st: Splitter, l: string)
    requires '\n' !in l && st.line == [] && !st.inCode
    requires Trim(l + "\n") == []
    ensures Feed(st, l + "\n") == Splitter(st.events + Flush(st.buffer) + [Separator(l + "\n")], [], [], false)
  {
    FeedLine(st, l);
  }

  /** Outside a fence a heading flushes what is pending and is rendered
      alone. */
  lemma HeadingStandsAlone(st: Splitter, l: string)
    requires '\n' !in l && st.line == [] && !st.inCode
    requires IsHeading(Trim(l + "\n"))
    ensures Feed(st, l + "\n") == Splitter(st.events + Flush(st.buffer) + [Block(l + "\n")], [], [], false)
  {
    FeedLine(st, l);
  }

  /** Outside a fence any other line, list item or prose alike, joins the
      pending block and nothing is emitted. */
  lemma TextAccumulates(st: Splitter, l: string)
    requires '\n' !in l && st.line == [] && !st.inCode
    requires var t := Trim(l + "\n"); t != [] && !IsFence(t) && !IsHeading(t)
    ensures Feed(st, l + "\n") == Splitter(st.events, [], st.buffer + l + "\n", false)
  {
    FeedLine(st, l);
    AppendAssoc(st.buffer, l, "\n");
  }

  lemma BlankLine()
    ensures Trim([] + "\n") == []
  {
    var nl: string := [] + "\n";
    assert |nl| == 1 && IsWhitespace(nl[0]);
    BlankIsTrimmedEmpty(nl);
  }

  /** An empty line outside a fence flushes what is pending and prints a
      separator. */
  lemma EmptyLineSeparates(st: Splitter)
    requires st.line == [] && !st.inCode
    ensures Feed(st, "\n") == Splitter(st.events + Flush(st.buffer) + [Separator("\n")], [], [], false)
  {
    BlankLine();
    BlankLineSeparates(st, []);
    assert [] + "\n" == "\n";
  }

  /** A prose line read with nothing pending starts a new block. */
  lemma ProseStartsBlock(st: Splitter, prose: string)
    requires st.line == [] && st.buffer == [] && !st.inCode
    requires '\n' !in prose
    requires var t := Trim(prose + "\n"); t != [] && !IsFence(t) && !IsHeading(t)
    ensures Feed(st, prose + "\n") == st.(buffer := prose + "\n")
  {
    TextAccumulates(st, prose);
    assert st.buffer + prose + "\n" == prose + "\n";
  }

  lemma FenceLine()
    ensures IsFence(Trim("```" + "\n"))
  {
    TrimKeepsStart("```" + "\n", "```");
  }

  /** A heading line and a blank line, from the start. */
  lemma ExampleHeading(heading: string)
    requires '\n' !in heading
    requires var t := Trim(heading + "\n"); IsHeading(t) && !IsFence(t)
    ensures Feed(Start, (heading + "\n") + "\n") == Splitter([Block(heading + "\n"), Separator("\n")], [], [], false)
  {
    var s1 := Splitter([Block(heading + "\n")], [], [], false);
    HeadingStandsAlone(Start, heading);
    assert Start.events + Flush(Start.buffer) + [Block(heading + "\n")] == s1.events;
    assert Feed(Start, heading + "\n") == s1;
    FeedAppend(Start, heading + "\n", "\n");
    EmptyLineSeparates(s1);
    assert s1.events + Flush(s1.buffer) == s1.events;
  }

  /** A paragraph line and a blank line, read with nothing pending. */
  lemma ExampleParagraph(st: Splitter, prose: string)
    requires st.line == [] && st.buffer == [] && !st.inCode
    requires '\n' !in prose
    requires var t := Trim(prose + "\n"); t != [] && !IsFence(t) && !IsHeading(t)
    ensures Feed(st, (prose + "\n") + "\n") == Splitter(st.events + [Block(prose + "\n"), Separator("\n")], [], [], false)
  {
    var s1 := st.(buffer := prose + "\n");
    ProseStartsBlock(st, prose);
    FeedAppend(st, prose + "\n", "\n");
    EmptyLineSeparates(s1);
    assert Flush(s1.buffer) == [Block(prose + "\n")];
    AppendAssoc(st.events, [Block(prose + "\n")], [Separator("\n")]);
  }

  /** A fenced code block of one line, read with nothing pending, is
      rendered whole when its fence closes. */
  lemma ExampleCode(st: Splitter, fence: string, code: string)
    requires st.line == [] && st.buffer == [] && !st.inCode
    requires '\n' !in fence && IsFence(Trim(fence + "\n"))
    requires '\n' !in code && !IsFence(Trim(code + "\n"))
    ensures Feed(st, (fence + "\n") + (code + "\n") + (fence + "\n"))
         == Splitter(st.events + [Block((fence + "\n") + (code + "\n") + (fence + "\n"))], [], [], false)
  {
    var open := fence + "\n";
    var s1 := st.(buffer := open, inCode := true);
    FenceOpens(st, fence);
    assert st.events + Flush(st.buffer) == st.events;
    assert Feed(st, open) == s1;
    var s2 := s1.(buffer := open + (code + "\n"));
    FenceSuspends(s1, code);
    AppendAssoc(open, code, "\n");
    assert Feed(s1, code + "\n") == s2;
    FeedAppend(st, open, code + "\n");
    FeedAppend(st, open + (code + "\n"), open);
    FenceCloses(s2, fence);
    AppendAssoc(s2.buffer, fence, "\n");
  }

  /** The three parts of the example, fed one after the other. */
  lemma ExampleFeed(heading: string, prose: string, code: string)
    requires '\n' !in heading && '\n' !in prose && '\n' !in code
    requires var t := Trim(heading + "\n"); IsHeading(t) && !IsFence(t)
    requires var t := Trim(prose + "\n"); t != [] && !IsFence(t) && !IsHeading(t)
    requires !IsFence(Trim(code + "\n"))
    ensures
      var block := ("```" + "\n") + (code + "\n") + ("```" + "\n");
      Feed(Start, ((heading + "\n") + "\n") + ((prose + "\n") + "\n") + block)
      == Splitter([Block(heading + "\n"), Separator("\n")] + [Block(prose + "\n"), Separator("\n")] + [Block(block)],
                  [], [], false)
  {
    var a := (heading + "\n") + "\n";
    var p := (prose + "\n") + "\n";
    var b := ("```" + "\n") + (code + "\n") + ("```" + "\n");
    var e1 := [Block(heading + "\n"), Separator("\n")];
    var e2 := e1 + [Block(prose + "\n"), Separator("\n")];
    ExampleHeading(heading);
    var s1 := Splitter(e1, [], [], false);
    ExampleParagraph(s1, prose);
    FeedAppend(Start, a, p);
    var s2 := Splitter(e2, [], [], false);
    FenceLine();
    ExampleCode(s2, "```", code);
    FeedAppend(Start, a + p, b);
  }

  /** A heading, a blank line, a paragraph line, a blank line and a fenced
      code block of one line, sent as one chunk, come out as the heading, a
      separator, the paragraph, a separator and the whole code block. */
  lemma SplitExample(heading: string, prose: string, code: string)
    requires '\n' !in heading && '\n' !in prose && '\n' !in code
    requires var t := Trim(heading + "\n"); IsHeading(t) && !IsFence(t)
    requires var t := Trim(prose + "\n"); t != [] && !IsFence(t) && !IsHeading(t)
    requires !IsFence(Trim(code + "\n"))
    ensures
      var block := ("```" + "\n") + (code + "\n") + ("```" + "\n");
      Split([Chunk(((heading + "\n") + "\n") + ((prose + "\n") + "\n") + block)])
      == [Block(heading + "\n"), Separator("\n"), Block(prose + "\n"), Separator("\n"), Block(block)]
  {
    var block := ("```" + "\n") + (code + "\n") + ("```" + "\n");
    var text := ((heading + "\n") + "\n") + ((prose + "\n") + "\n") + block;
    var events := [Block(heading + "\n"), Separator("\n")] + [Block(prose + "\n"), Separator("\n")] + [Block(block)];
    ExampleFeed(heading, prose, code);
    SplitWhole(text, Splitter(events, [], [], false));
    FiveEvents(Block(heading + "\n"), Separator("\n"), Block(prose + "\n"), Separator("\n"), Block(block));
  }

  lemma FiveEvents(a: Event, b: Event, c: Event, d: Event, e: Event)
    ensures [a, b] + [c, d] + [e] == [a, b, c, d, e]
  {
  }

  /** A stream of one chunk that ends on a completed line outside a block
      yields the events its text produced. */
  lemma SplitWhole(text: string, st: Splitter)
    requires Feed(Start, text) == st && st.line == [] && st.buffer == []
    ensures Split([Chunk(text)]) == st.events
  {
    AppendEmpty(text);
    assert [Chunk(text)][1..] == [];
    assert Received([Chunk(text)]) == text;
  }

  // ---------------------------------------------------------------------
  // The stream
  // ---------------------------------------------------------------------

  /** The first error ends the stream: whatever follows it is not read. */
  lemma {:induction false} FailureEndsStream(items: seq<Item>, message: string, rest: seq<Item>)
    ensures Received(items + [Failure(message)] + rest) == Received(items)
    decreases |items|
  {
    var all := items + [Failure(message)] + rest;
    if items == [] {
      assert all[0] == Failure(message);
    } else {
      assert all[0] == items[0];
      if items[0].Chunk? {
        assert all[1..] == items[1..] + [Failure(message)] + rest;
        FailureEndsStream(items[1..], message, rest);
      }
    }
  }

  /** What the splitter makes of a stream: every received character is
      accounted for, no block is empty, and a separator only replaces a
      whitespace-only line. */
  lemma SplitSound(items: seq<Item>)
    ensures Flatten(Split(items)) == Received(items)
    ensures forall e :: e in Split(items) ==> Emittable(e)
  {
    var st := Feed(Start, Received(items));
    FeedConserves(Start, Received(items));
    DrainedConserves(st);
    FeedGood(Start, Received(items));
    DrainedGood(st);
  }

  // ---------------------------------------------------------------------
  // The imperative splitter
  // ---------------------------------------------------------------------

  /** The local state of `stream_and_render_response`; `log` records what
      was rendered or printed. */
  class BlockSplitter {
    var fullResponse: string
    var currentLine: string
    var buffer: string
    var inCodeBlock: bool
    ghost var log: seq<Event>

    ghost function State(): Splitter
      reads this
    {
      Splitter(log, currentLine, buffer, inCodeBlock)
    }

    /** The full response is exactly what the splitter has taken in. */
    ghost predicate Valid()
      reads this
    {
      Good(State()) && Seen(State()) == fullResponse
    }

    constructor ()
      ensures State() == Start && fullResponse == [] && Valid()
    {
      fullResponse := [];
      currentLine := [];
      buffer := [];
      inCodeBlock := false;
      log := [];
    }

    /** `render_markdown`, which always succeeds. */
    method RenderMarkdown(text: string)
      modifies this`log
      ensures log == old(log) + [Block(text)]
    {
      log := log + [Block(text)];
    }

    /** `println!()` in place of the current line. */
    method PrintSeparator()
      modifies this`log
      ensures log == old(log) + [Separator(currentLine)]
    {
      log := log + [Separator(currentLine)];
    }

    /** The pending block is rendered, when there is one. */
    method FlushBuffer()
      modifies this`buffer, this`log
      ensures log == old(log) + Flush(old(buffer)) && buffer == []
    {
      if buffer != [] {
        RenderMarkdown(buffer);
        buffer := [];
      }
    }

    /** The body run when `ch == '\n'`. */
    method EndLine()
      modifies this`currentLine, this`buffer, this`inCodeBlock, this`log
      ensures State() == CompleteLine(old(State()))
    {
      ghost var st := State();
      ghost var target := CompleteLine(st);
      var trimmed := Trim(currentLine);
      assert trimmed == Trim(st.line);
      if IsFence(trimmed) {
        if inCodeBlock {
          assert target == Splitter(st.events + [Block(st.buffer + st.line)], [], [], false);
          buffer := buffer + currentLine;
          RenderMarkdown(buffer);
          buffer := [];
          inCodeBlock := false;
        } else {
          assert target == Splitter(st.events + Flush(st.buffer), [], st.line, true);
          FlushBuffer();
          buffer := buffer + currentLine;
          inCodeBlock := true;
          assert buffer == st.line;
        }
      } else if inCodeBlock {
        assert target == Splitter(st.events, [], st.buffer + st.line, true);
        buffer := buffer + currentLine;
      } else if trimmed == [] {
        assert target == Splitter(st.events + Flush(st.buffer) + [Separator(st.line)], [], [], false);
        FlushBuffer();
        PrintSeparator();
      } else if IsHeading(trimmed) {
        assert target == Splitter(st.events + Flush(st.buffer) + [Block(st.line)], [], [], false);
        FlushBuffer();
        RenderMarkdown(currentLine);
      } else if IsListItem(trimmed) {
        assert target == Splitter(st.events, [], st.buffer + st.line, false);
        buffer := buffer + currentLine;
      } else {
        assert target == Splitter(st.events, [], st.buffer + st.line, false);
        buffer := buffer + currentLine;
      }
      currentLine := [];
    }

    /** One character of a chunk. */
    method PushChar(ch: char)
      modifies this`currentLine, this`buffer, this`inCodeBlock, this`log
      ensures State() == Step(old(State()), ch)
    {
      currentLine := currentLine + [ch];
      if ch == '\n' {
        EndLine();
      }
    }

    /** One `Ok` chunk: the full response grows by it, then its characters
        go through the splitter; empty chunks are skipped. */
    method PushChunk(chunk: string)
      requires Valid()
      modifies this
      ensures fullResponse == old(fullResponse) + chunk
      ensures State() == Feed(old(State()), chunk)
      ensures Valid()
    {
      if chunk != [] {
        fullResponse := fullResponse + chunk;
        ghost var before := State();
        var i := 0;
        while i < |chunk|
          invariant 0 <= i <= |chunk|
          invariant fullResponse == old(fullResponse) + chunk
          invariant State() == Feed(before, chunk[..i])
        {
          FeedAppend(before, chunk[..i], [chunk[i]]);
          assert chunk[..i + 1] == chunk[..i] + [chunk[i]];
          PushChar(chunk[i]);
          i := i + 1;
        }
        assert chunk[..i] == chunk;
        FeedConserves(before, chunk);
        FeedGood(before, chunk);
      } else {
        assert Feed(State(), chunk) == State();
      }
    }

    /** The end of the stream: the partial line joins the buffer and a
        non-empty buffer is rendered. */
    method Finish()
      requires Valid()
      modifies this`buffer, this`log
      ensures log == Drained(old(State()))
      ensures Flatten(log) == fullResponse
    {
      ghost var st := State();
      if currentLine != [] {
        buffer := buffer + currentLine;
      }
      if buffer != [] {
        RenderMarkdown(buffer);
      }
      DrainedConserves(st);
    }
  }

  /** `stream_and_render_response` over a stream given as its items: reads
      `Ok` chunks until the first error or the end, renders as it goes, and
      returns the text received. `events` is what was rendered or printed. */
  method StreamAndRenderResponse(items: seq<Item>) returns (full: string, ghost events: seq<Event>)
    ensures full == Received(items)
    ensures events == Split(items)
    ensures Flatten(events) == full
    ensures forall e :: e in events ==> Emittable(e)
  {
    var splitter := new BlockSplitter();
    var i := 0;
    while i < |items| && items[i].Chunk?
      invariant 0 <= i <= |items|
      invariant splitter.Valid()
      invariant splitter.fullResponse + Received(items[i..]) == Received(items)
      invariant splitter.State() == Feed(Start, splitter.fullResponse)
      decreases |items| - i
    {
      var chunk := items[i].text;
      ghost var before := splitter.fullResponse;
      splitter.PushChunk(chunk);
      FeedAppend(Start, before, chunk);
      assert items[i..][1..] == items[i + 1..];
      AppendAssoc(before, chunk, Received(items[i + 1..]));
      i := i + 1;
    }
    assert Received(items[i..]) == [];
    splitter.Finish();
    full := splitter.fullResponse;
    events := splitter.log;
    SplitSound(items);
  }
}
