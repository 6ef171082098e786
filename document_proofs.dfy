/** What the reader of `src/conversation.rs` makes of the documents its
    writers produce: the lines of a written document, how the section
    scanner walks over them, and the round trip from messages to document
    and back. */
module DocumentProofs {
  import opened Text
  import opened Conversation

  // ---------------------------------------------------------------------
  // Regrouping sequences
  // ---------------------------------------------------------------------

  lemma Cons2<T>(a: T, b: T, s: seq<T>)
    ensures [a] + ([b] + s) == [a, b] + s
  {
  }

  lemma Regroup<T>(a: T, b: T, c: T, p: seq<T>, q: seq<T>)
    ensures [a] + ([b] + ([c] + (p + q))) == [a, b] + (([c] + p) + q)
  {
  }

  lemma Regroup4<T>(x: seq<T>, y: seq<T>, z: seq<T>, w: seq<T>)
    ensures (x + (y + z)) + w == (x + y) + (z + w)
  {
  }

  lemma BodyRegroup<T>(a: T, p: seq<T>, b: T, t: seq<T>)
    ensures (([a] + p) + [b]) + t == [a] + (p + ([b] + t))
  {
  }

  /** The middle of three concatenated sequences, with a prefix of the last. */
  lemma MidSlice<T>(x: seq<T>, y: seq<T>, r: seq<T>, s: nat)
    requires s <= |r|
    ensures ((x + y) + r)[|x|..|x| + |y| + s] == y + r[..s]
  {
    var l := (x + y) + r;
    assert forall k :: 0 <= k < |y| ==> l[|x| + k] == y[k];
    assert forall k :: 0 <= k < s ==> l[|x| + |y| + k] == r[k];
  }

  /** Indexes `i..i2` of `a + r` are indexes `j..j2` of `r`. */
  lemma SliceShift<T>(a: seq<T>, r: seq<T>, i: nat, i2: nat, j: nat, j2: nat)
    requires j <= j2 <= |r| && i == |a| + j && i2 == |a| + j2
    ensures (a + r)[i..i2] == r[j..j2]
  {
  }

  // ---------------------------------------------------------------------
  // What a written document looks like, line by line
  // ---------------------------------------------------------------------

  /** The first line of a document, without its `'\n'`. */
  function HeaderLine(title: Option<string>, id: string): string
  {
    match title
    case Some(t) => "# " + t
    case None => "# Conversation " + id
  }

  /** The role the reader reports for a message written with `role`. */
  function ReadRole(role: string): string
  {
    if role == "user" then "user" else "assistant"
  }

  function Normalize(m: Message): Message
  {
    Message(ReadRole(m.role), m.content)
  }

  /** The messages as the reader reports them: the same contents, in the
      same order, with every role other than `"user"` read as
      `"assistant"`. */
  function NormalizeAll(msgs: seq<Message>): seq<Message>
    decreases |msgs|
  {
    if msgs == [] then [] else [Normalize(msgs[0])] + NormalizeAll(msgs[1..])
  }

  /** No line of `c` ends in `'\r'`, which `str::lines` would drop. */
  predicate NoCRLineEnd(c: string)
  {
    forall p :: p in Pieces(c) ==> !EndsWithCR(p)
  }

  /** Content the reader gives back unchanged. */
  predicate Storable(c: string)
  {
    TrimmedContent(c) && NoHeadingLine(c) && NoCRLineEnd(c)
  }

  predicate AllStorable(msgs: seq<Message>)
  {
    forall k :: 0 <= k < |msgs| ==> Storable(msgs[k].content)
  }

  predicate AllNoCRLineEnd(msgs: seq<Message>)
  {
    forall k :: 0 <= k < |msgs| ==> NoCRLineEnd(msgs[k].content)
  }

  /** A title the reader gives back unchanged. */
  predicate StorableTitle(t: string)
  {
    '\n' !in t && (t == [] || (!IsWhitespace(t[0]) && !IsWhitespace(t[|t| - 1])))
    && !StartsWith(t, "# ") && !StartsWith(t, "Conversation ")
  }

  /** A header the reader gives back: a storable title, or the placeholder
      for an identifier that holds a non-whitespace character. */
  predicate StorableHeader(title: Option<string>, id: string)
  {
    match title
    case Some(t) => StorableTitle(t)
    case None => '\n' !in id && !IsBlank(id)
  }

  /** The lines below a message heading: a blank line, the content's lines
      and a blank line. */
  function ChunkBody(c: string): seq<string>
  {
    [""] + Pieces(c) + [""]
  }

  /** The lines one message chunk reads as. */
  function ChunkLines(m: Message): seq<string>
  {
    ["", RoleHeading(m.role)] + ChunkBody(m.content)
  }

  function AllChunkLines(msgs: seq<Message>): seq<string>
    decreases |msgs|
  {
    if msgs == [] then [] else ChunkLines(msgs[0]) + AllChunkLines(msgs[1..])
  }

  lemma LinesOfNewline()
    ensures Lines("\n") == [""]
  {
    LinesOfLine("");
    assert "" + "\n" == "\n";
  }

  lemma TwoNewlines()
    ensures "\n\n" == "\n" + "\n"
  {
  }

  /** A role heading is one line that the reader takes for a heading of
      the role it was written for. */
  lemma RoleHeadingIsLine(role: string)
    ensures '\n' !in RoleHeading(role) && StripCR(RoleHeading(role)) == RoleHeading(role)
  {
  }

  lemma RoleHeadingReadsBack(role: string)
    ensures HeadingRole(RoleHeading(role)) == Some(ReadRole(role))
  {
    if role != "user" {
      assert "## Assistant"[3] != "## You"[3];
      assert !StartsWith("## Assistant", "## You");
    }
  }

  lemma RoleHeadingOpensSection(role: string)
    ensures StartsWith(RoleHeading(role), "## ")
  {
  }

  lemma ChunkText(m: Message)
    ensures var tail := "\n" + ((m.content + "\n") + "\n");
            MessageChunk(m) == "\n" + ((RoleHeading(m.role) + "\n") + tail)
  {
    TwoNewlines();
  }

  lemma LinesOfChunk(m: Message)
    requires NoCRLineEnd(m.content)
    ensures Lines(MessageChunk(m)) == ChunkLines(m)
  {
    var h := RoleHeading(m.role);
    var c := m.content;
    var tail := "\n" + ((c + "\n") + "\n");
    ChunkText(m);
    LinesAppend("\n", (h + "\n") + tail);
    LinesAppend(h + "\n", tail);
    LinesAppend("\n", (c + "\n") + "\n");
    LinesAppend(c + "\n", "\n");
    LinesOfNewline();
    RoleHeadingIsLine(m.role);
    LinesOfLine(h);
    LinesOfTerminated(c);
    Regroup("", h, "", Pieces(c), [""]);
  }

  lemma {:induction false} LinesOfChunks(msgs: seq<Message>)
    requires AllNoCRLineEnd(msgs)
    ensures Lines(Chunks(msgs)) == AllChunkLines(msgs)
    decreases |msgs|
  {
    if msgs != [] {
      var chunk := MessageChunk(msgs[0]);
      assert chunk[|chunk| - 1] == '\n';
      LinesAppend(chunk, Chunks(msgs[1..]));
      LinesOfChunk(msgs[0]);
      LinesOfChunks(msgs[1..]);
    }
  }

  lemma HeaderText(title: Option<string>, id: string)
    ensures Header(title, id) == HeaderLine(title, id) + ("\n" + "\n")
  {
    TwoNewlines();
  }

  /** A written document reads as its header line, one blank line, then
      the lines of each chunk in turn. */
  lemma LinesOfDocument(title: Option<string>, id: string, msgs: seq<Message>)
    requires '\n' !in HeaderLine(title, id)
    requires AllNoCRLineEnd(msgs)
    ensures Lines(Document(title, id, msgs)) == [StripCR(HeaderLine(title, id)), ""] + AllChunkLines(msgs)
  {
    var hl := HeaderLine(title, id);
    var body := Chunks(msgs);
    HeaderText(title, id);
    Regroup4(hl, "\n", "\n", body);
    LinesAppend(hl + "\n", "\n" + body);
    LinesAppend("\n", body);
    LinesOfLine(hl);
    LinesOfNewline();
    LinesOfChunks(msgs);
    Cons2(StripCR(hl), "", AllChunkLines(msgs));
  }

  // ---------------------------------------------------------------------
  // How the section scanner walks over concatenated lines
  // ---------------------------------------------------------------------

  lemma SectionsFromSkip(lines: seq<string>, i: nat)
    requires i < |lines| && HeadingRole(lines[i]).None?
    ensures SectionsFrom(lines, i) == SectionsFrom(lines, i + 1)
  {
  }

  lemma SectionsFromTurn(lines: seq<string>, i: nat, role: string)
    requires i < |lines| && HeadingRole(lines[i]) == Some(role)
    ensures var e := SectionEnd(lines, i + 1);
            SectionsFrom(lines, i) == Turn(role, lines[i + 1..e]) + SectionsFrom(lines, e)
  {
  }

  /** `l` holds `r` from index `n` on, and nothing after it. */
  predicate ShiftedBy(l: seq<string>, n: nat, r: seq<string>)
  {
    |l| == n + |r| && forall k :: 0 <= k < |r| ==> l[n + k] == r[k]
  }

  lemma AppendShifted(a: seq<string>, r: seq<string>)
    ensures ShiftedBy(a + r, |a|, r)
  {
  }

  lemma ShiftedSlice(l: seq<string>, n: nat, r: seq<string>, i: nat, i2: nat, j: nat, j2: nat)
    requires ShiftedBy(l, n, r)
    requires j <= j2 <= |r| && i == n + j && i2 == n + j2
    ensures l[i..i2] == r[j..j2]
  {
    assert forall k :: 0 <= k < j2 - j ==> l[i..i2][k] == l[n + (j + k)];
  }

  /** Lines in front do not move where a section ends, only the index:
      index `i` of `l` is index `j` of `r`. */
  lemma {:induction false} SectionEndShift(l: seq<string>, n: nat, r: seq<string>, i: nat, j: nat)
    requires ShiftedBy(l, n, r)
    requires j <= |r| && i == n + j
    ensures SectionEnd(l, i) == n + SectionEnd(r, j)
    decreases |r| - j
  {
    if j < |r| {
      assert l[i] == r[j];
      if !StartsWith(r[j], "## ") {
        SectionEndShift(l, n, r, i + 1, j + 1);
      }
    }
  }

  /** A section runs on across lines that do not start with `"## "`. */
  lemma {:induction false} SectionEndPast(a: seq<string>, r: seq<string>, j: nat)
    requires j <= |a|
    requires forall k :: j <= k < |a| ==> !StartsWith(a[k], "## ")
    ensures SectionEnd(a + r, j) == |a| + SectionEnd(r, 0)
    decreases |a| - j
  {
    if j == |a| {
      AppendShifted(a, r);
      SectionEndShift(a + r, |a|, r, j, 0);
    } else {
      assert (a + r)[j] == a[j];
      SectionEndPast(a, r, j + 1);
    }
  }

  /** Two scans that meet the same heading and the same section go on
      to find the same turns. */
  lemma SectionsFromSame(l: seq<string>, i: nat, r: seq<string>, j: nat)
    requires i < |l| && j < |r| && l[i] == r[j] && HeadingRole(r[j]).Some?
    requires l[i + 1..SectionEnd(l, i + 1)] == r[j + 1..SectionEnd(r, j + 1)]
    requires SectionsFrom(l, SectionEnd(l, i + 1)) == SectionsFrom(r, SectionEnd(r, j + 1))
    ensures SectionsFrom(l, i) == SectionsFrom(r, j)
  {
    SectionsFromTurn(l, i, HeadingRole(r[j]).value);
    SectionsFromTurn(r, j, HeadingRole(r[j]).value);
  }

  /** Lines in front do not change the turns found after them: scanning
      `l` from index `i` finds what scanning `r` from index `j` does. */
  lemma {:induction false} SectionsFromShift(l: seq<string>, n: nat, r: seq<string>, i: nat, j: nat)
    requires ShiftedBy(l, n, r)
    requires j <= |r| && i == n + j
    ensures SectionsFrom(l, i) == SectionsFrom(r, j)
    decreases |r| - j
  {
    if j < |r| {
      assert l[i] == r[j];
      if HeadingRole(r[j]).None? {
        SectionsFromShift(l, n, r, i + 1, j + 1);
        SectionsFromSkip(l, i);
        SectionsFromSkip(r, j);
      } else {
        SectionEndShift(l, n, r, i + 1, j + 1);
        SectionsFromShift(l, n, r, SectionEnd(l, i + 1), SectionEnd(r, j + 1));
        ShiftedSlice(l, n, r, i + 1, SectionEnd(l, i + 1), j + 1, SectionEnd(r, j + 1));
        SectionsFromSame(l, i, r, j);
      }
    }
  }

  /** Lines in front do not change the turns found after them. */
  lemma SectionsFromAppend(a: seq<string>, r: seq<string>, i: nat, j: nat)
    requires j <= |r| && i == |a| + j
    ensures SectionsFrom(a + r, i) == SectionsFrom(r, j)
  {
    AppendShifted(a, r);
    SectionsFromShift(a + r, |a|, r, i, j);
  }

  /** Lines that open no section are passed over: whatever precedes the
      first heading does not change the turns read. */
  lemma {:induction false} StrayLinesIgnored(a: seq<string>, r: seq<string>, j: nat)
    requires j <= |a|
    requires forall k :: j <= k < |a| ==> HeadingRole(a[k]).None?
    ensures SectionsFrom(a + r, j) == SectionsFrom(r, 0)
    decreases |a| - j
  {
    if j == |a| {
      SectionsFromAppend(a, r, j, 0);
    } else {
      assert (a + r)[j] == a[j];
      SectionsFromSkip(a + r, j);
      StrayLinesIgnored(a, r, j + 1);
    }
  }

  /** A heading's section yields no turn exactly when every line of it is
      blank. */
  lemma BlankSectionDropped(role: string, section: seq<string>)
    ensures Turn(role, section) == [] <==> forall k :: 0 <= k < |section| ==> IsBlank(section[k])
  {
    TrimBlankLinesCuts(section);
    var r := TrimBlankLines(section);
    var a := |section| - |DropLeadingBlank(section)|;
    if r != [] {
      assert r[0] == section[a];
    }
  }

  /** `l` starts with the lines `a`. */
  predicate Prefixed(l: seq<string>, a: seq<string>)
  {
    |a| <= |l| && forall k :: 0 <= k < |a| ==> l[k] == a[k]
  }

  /** What follows `a` in `l` is nothing or a line that ends any section. */
  predicate EndsAtHeading(l: seq<string>, a: seq<string>)
    requires |a| <= |l|
  {
    |l| == |a| || StartsWith(l[|a|], "## ")
  }

  lemma {:induction false} SectionEndPrefix(l: seq<string>, a: seq<string>, j: nat)
    requires Prefixed(l, a) && EndsAtHeading(l, a) && j <= |a|
    ensures SectionEnd(l, j) == SectionEnd(a, j)
    decreases |a| - j
  {
    if j < |a| {
      assert l[j] == a[j];
      if !StartsWith(a[j], "## ") {
        SectionEndPrefix(l, a, j + 1);
      }
    }
  }

  lemma PrefixSlice(l: seq<string>, a: seq<string>, i: nat, e: nat)
    requires Prefixed(l, a) && i <= e <= |a|
    ensures l[i..e] == a[i..e]
  {
  }

  /** One step of `SectionsFromPrefix` over a heading line, given the step
      after the section. */
  lemma PrefixTurn(l: seq<string>, a: seq<string>, j: nat, rest: seq<Message>)
    requires Prefixed(l, a) && EndsAtHeading(l, a) && j < |a| && HeadingRole(a[j]).Some?
    requires SectionsFrom(l, SectionEnd(a, j + 1)) == SectionsFrom(a, SectionEnd(a, j + 1)) + rest
    ensures SectionsFrom(l, j) == SectionsFrom(a, j) + rest
  {
    var role := HeadingRole(a[j]).value;
    var e := SectionEnd(a, j + 1);
    assert l[j] == a[j];
    SectionEndPrefix(l, a, j + 1);
    PrefixSlice(l, a, j + 1, e);
    SectionsFromTurn(l, j, role);
    SectionsFromTurn(a, j, role);
    AppendAssoc(Turn(role, a[j + 1..e]), SectionsFrom(a, e), rest);
  }

  /** The turns of `l` are those of its first lines `a` and then those of
      the rest, when `a` ends at a heading of `l`. */
  lemma {:induction false} SectionsFromPrefix(l: seq<string>, a: seq<string>, j: nat)
    requires Prefixed(l, a) && EndsAtHeading(l, a) && j <= |a|
    ensures SectionsFrom(l, j) == SectionsFrom(a, j) + SectionsFrom(l, |a|)
    decreases |a| - j
  {
    var rest := SectionsFrom(l, |a|);
    if j == |a| {
      assert [] + rest == rest;
    } else if HeadingRole(a[j]).None? {
      assert l[j] == a[j];
      SectionsFromPrefix(l, a, j + 1);
      SectionsFromSkip(l, j);
      SectionsFromSkip(a, j);
    } else {
      SectionsFromPrefix(l, a, SectionEnd(a, j + 1));
      PrefixTurn(l, a, j, rest);
    }
  }

  /** Turns come out in document order: reading two documents joined at a
      heading line gives the turns of the first, then those of the second. */
  lemma SectionsOfJoined(a: seq<string>, r: seq<string>)
    requires r == [] || StartsWith(r[0], "## ")
    ensures SectionsFrom(a + r, 0) == SectionsFrom(a, 0) + SectionsFrom(r, 0)
  {
    var l := a + r;
    assert Prefixed(l, a);
    assert |l| == |a| || l[|a|] == r[0];
    SectionsFromPrefix(l, a, 0);
    SectionsFromAppend(a, r, |a|, 0);
  }

  lemma {:induction false} DropLeadingAll(pre: seq<string>, rest: seq<string>)
    requires forall k :: 0 <= k < |pre| ==> IsBlank(pre[k])
    requires rest == [] || !IsBlank(rest[0])
    ensures DropLeadingBlank(pre + rest) == rest
    decreases |pre|
  {
    if pre == [] {
      assert pre + rest == rest;
    } else {
      assert (pre + rest)[0] == pre[0];
      assert (pre + rest)[1..] == pre[1..] + rest;
      DropLeadingAll(pre[1..], rest);
    }
  }

  lemma {:induction false} DropTrailingAll(rest: seq<string>, post: seq<string>)
    requires forall k :: 0 <= k < |post| ==> IsBlank(post[k])
    requires rest == [] || !IsBlank(rest[|rest| - 1])
    ensures DropTrailingBlank(rest + post) == rest
    decreases |post|
  {
    if post == [] {
      assert rest + post == rest;
    } else {
      var s := rest + post;
      assert s[|s| - 1] == post[|post| - 1];
      assert s[..|s| - 1] == rest + post[..|post| - 1];
      DropTrailingAll(rest, post[..|post| - 1]);
    }
  }

  /** Blank lines around a body that starts and ends with a non-blank line
      are exactly what the reader trims. */
  lemma TrimBlankLinesAround(pre: seq<string>, body: seq<string>, post: seq<string>)
    requires forall k :: 0 <= k < |pre| ==> IsBlank(pre[k])
    requires forall k :: 0 <= k < |post| ==> IsBlank(post[k])
    requires |body| > 0 && !IsBlank(body[0]) && !IsBlank(body[|body| - 1])
    ensures TrimBlankLines(pre + (body + post)) == body
  {
    assert (body + post)[0] == body[0];
    DropLeadingAll(pre, body + post);
    DropTrailingAll(body, post);
  }

  // ---------------------------------------------------------------------
  // The round trip
  // ---------------------------------------------------------------------

  /** The lines of a chunk sequence are empty or start with a blank line
      followed by a heading. */
  predicate OpensWithChunk(r: seq<string>)
  {
    r == [] || (|r| >= 2 && r[0] == "" && StartsWith(r[1], "## "))
  }

  lemma AllChunkLinesOpen(msgs: seq<Message>)
    ensures OpensWithChunk(AllChunkLines(msgs))
  {
    if msgs != [] {
      var l := AllChunkLines(msgs);
      var h := RoleHeading(msgs[0].role);
      assert l[0] == "" && l[1] == h;
      RoleHeadingOpensSection(msgs[0].role);
    }
  }

  /** Where the section of a chunk stops: at the end, or before the blank
      line that opens the next chunk's heading, one line further. */
  lemma SectionEndOfChunks(r: seq<string>)
    requires OpensWithChunk(r)
    ensures SectionEnd(r, 0) == (if r == [] then 0 else 1)
    ensures r != [] ==> SectionsFrom(r, 1) == SectionsFrom(r, 0)
  {
    if r != [] {
      assert !StartsWith(r[0], "## ");
      assert SectionEnd(r, 1) == 1;
      assert HeadingRole(r[0]).None?;
    }
  }

  /** The body of one chunk, with blank lines after it, yields its message
      back. */
  lemma ChunkTurn(m: Message, tail: seq<string>)
    requires Storable(m.content)
    requires tail == [] || tail == [""]
    ensures Turn(ReadRole(m.role), ChunkBody(m.content) + tail) == [Normalize(m)]
  {
    var ps := Pieces(m.content);
    var post := [""] + tail;
    assert forall k :: 0 <= k < |post| ==> post[k] == "";
    BodyRegroup("", ps, "", tail);
    TrimBlankLinesAround([""], ps, post);
    JoinPieces(m.content);
  }

  /** No line below a chunk's heading starts with `"## "`. */
  lemma ChunkBodyHasNoHeading(c: string)
    requires NoHeadingLine(c)
    ensures forall k :: 0 <= k < |ChunkBody(c)| ==> !StartsWith(ChunkBody(c)[k], "## ")
  {
    var ps := Pieces(c);
    var b := ChunkBody(c);
    forall k | 0 <= k < |b| ensures !StartsWith(b[k], "## ") {
      if 1 <= k < 1 + |ps| {
        assert b[k] == ps[k - 1];
        assert ps[k - 1] in ps;
      }
    }
  }

  /** A chunk's section ends where the chunk does, or one line further
      when another chunk follows. */
  lemma ChunkSectionEnd(m: Message, r: seq<string>)
    requires NoHeadingLine(m.content)
    requires OpensWithChunk(r)
    ensures SectionEnd(ChunkLines(m) + r, 2) == |ChunkLines(m)| + (if r == [] then 0 else 1)
  {
    var c := ChunkLines(m);
    var b := ChunkBody(m.content);
    ChunkBodyHasNoHeading(m.content);
    assert forall k :: 2 <= k < |c| ==> c[k] == b[k - 2];
    SectionEndPast(c, r, 2);
    SectionEndOfChunks(r);
  }

  /** Scanning a chunk followed by further chunks yields the chunk's message
      and then whatever the further chunks yield. */
  lemma ChunkStep(m: Message, r: seq<string>)
    requires Storable(m.content)
    requires OpensWithChunk(r)
    ensures SectionsFrom(ChunkLines(m) + r, 0) == [Normalize(m)] + SectionsFrom(r, 0)
  {
    var h := RoleHeading(m.role);
    var b := ChunkBody(m.content);
    var c := ChunkLines(m);
    var l := c + r;
    var s := if r == [] then 0 else 1;
    assert l[0] == "" && l[1] == h;
    SectionsFromSkip(l, 0);
    RoleHeadingReadsBack(m.role);
    SectionsFromTurn(l, 1, ReadRole(m.role));
    ChunkSectionEnd(m, r);
    MidSlice(["", h], b, r, s);
    assert r[..s] == [] || r[..s] == [r[0]];
    ChunkTurn(m, r[..s]);
    SectionsFromAppend(c, r, |c| + s, s);
    SectionEndOfChunks(r);
  }

  lemma {:induction false} ChunkSections(msgs: seq<Message>)
    requires AllStorable(msgs)
    ensures SectionsFrom(AllChunkLines(msgs), 0) == NormalizeAll(msgs)
    decreases |msgs|
  {
    if msgs != [] {
      AllChunkLinesOpen(msgs[1..]);
      ChunkStep(msgs[0], AllChunkLines(msgs[1..]));
      ChunkSections(msgs[1..]);
    }
  }

  lemma HeaderLineIsLine(title: Option<string>, id: string)
    requires StorableHeader(title, id)
    ensures '\n' !in HeaderLine(title, id)
  {
    if title.None? {
      assert '\n' !in "# Conversation ";
    }
  }

  lemma HeaderLineOpensDocument(title: Option<string>, id: string)
    ensures StartsWith(StripCR(HeaderLine(title, id)), "# ")
  {
    var hl := HeaderLine(title, id);
    assert StripCR(hl)[..2] == hl[..2];
  }

  /** The reader recovers the messages the writer wrote: every content
      comes back unchanged, in order, with `"user"` kept and every other role
      read as `"assistant"`, whatever the title. */
  lemma ReadBackMessages(title: Option<string>, id: string, msgs: seq<Message>)
    requires '\n' !in HeaderLine(title, id)
    requires AllStorable(msgs)
    ensures ParseConversation(Document(title, id, msgs)).messages == NormalizeAll(msgs)
  {
    var first := StripCR(HeaderLine(title, id));
    var lines := [first, ""] + AllChunkLines(msgs);
    LinesOfDocument(title, id, msgs);
    HeaderLineOpensDocument(title, id);
    assert lines[0] == first && lines[1] == "";
    SectionsFromSkip(lines, 1);
    SectionsFromAppend([first, ""], AllChunkLines(msgs), 2, 0);
    ChunkSections(msgs);
  }

  lemma TrimStartMatchesOnce(x: string)
    requires !StartsWith(x, "# ")
    ensures TrimStartMatches("# " + x, "# ") == x
  {
    var s := "# " + x;
    assert s[..2] == "# " && s[2..] == x;
  }

  /** A title the writer stored is the title the reader returns. */
  lemma ReadBackTitle(t: string, id: string, msgs: seq<Message>)
    requires StorableTitle(t)
    requires AllNoCRLineEnd(msgs)
    ensures ParseConversation(Document(Some(t), id, msgs)).title == Some(t)
  {
    var hl := "# " + t;
    assert '\n' !in hl;
    LinesOfDocument(Some(t), id, msgs);
    assert StripCR(hl) == hl;
    TrimStartMatchesOnce(t);
    TrimUnchanged(t);
  }

  lemma PlaceholderText(id: string)
    ensures "# Conversation " + id == "# " + ("Conversation " + id)
  {
  }

  /** Trimming a text that starts with a non-whitespace prefix and holds a
      non-whitespace character after it keeps the prefix. */
  lemma TrimKeepsPrefix(p: string, x: string, j: nat)
    requires p != [] && !IsWhitespace(p[0])
    requires j < |x| && !IsWhitespace(x[j])
    ensures StartsWith(Trim(p + x), p)
  {
    var s := p + x;
    assert TrimStart(s) == s;
    assert s[|p| + j] == x[j];
    var r := TrimEnd(s);
    assert |r| > |p|;
    assert r[..|p|] == s[..|p|];
  }

  /** Only a `'\r'` right at the end of a line is stripped. */
  lemma StripCRAfter(p: string, x: string)
    requires x != []
    ensures StripCR(p + x) == p + StripCR(x)
  {
    assert (p + x)[|p + x| - 1] == x[|x| - 1];
    if EndsWithCR(x) {
      assert (p + x)[..|p + x| - 1] == p + x[..|x| - 1];
    }
  }

  /** The placeholder line, once `"# "` is stripped and the rest trimmed,
      still starts with `"Conversation "` when the identifier holds a
      non-whitespace character. */
  lemma PlaceholderStaysPlaceholder(id: string)
    requires !IsBlank(id)
    ensures StartsWith(Trim(TrimStartMatches(StripCR(HeaderLine(None, id)), "# ")), "Conversation ")
  {
    var j :| 0 <= j < |id| && !IsWhitespace(id[j]);
    var x := StripCR(id);
    assert j < |x| && x[j] == id[j];
    var p := "Conversation ";
    PlaceholderText(id);
    StripCRAfter(p, id);
    StripCRAfter("# ", p + id);
    assert (p + x)[0] == 'C';
    TrimStartMatchesOnce(p + x);
    TrimKeepsPrefix(p, x, j);
  }

  /** An untitled document's placeholder heading reads back as no title,
      provided the identifier holds a non-whitespace character. */
  lemma PlaceholderReadsAsUntitled(id: string, msgs: seq<Message>)
    requires '\n' !in id && !IsBlank(id)
    requires AllNoCRLineEnd(msgs)
    ensures ParseConversation(Document(None, id, msgs)).title == None
  {
    HeaderLineIsLine(None, id);
    LinesOfDocument(None, id, msgs);
    PlaceholderStaysPlaceholder(id);
  }

  /** A document built by appending one chunk per message to a header reads
      back as the header's title and the messages in order. */
  lemma RoundTrip(title: Option<string>, id: string, msgs: seq<Message>)
    requires StorableHeader(title, id)
    requires AllStorable(msgs)
    ensures ParseConversation(AppendChunks(Header(title, id), msgs)) == Parsed(NormalizeAll(msgs), title)
  {
    assert AllNoCRLineEnd(msgs);
    IncrementalEqualsBulk(title, id, msgs);
    HeaderLineIsLine(title, id);
    if title.Some? {
      ReadBackTitle(title.value, id, msgs);
    } else {
      PlaceholderReadsAsUntitled(id, msgs);
    }
    ReadBackMessages(title, id, msgs);
  }
}
