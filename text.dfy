/** The few operations of Rust's `str` and `char` that the conversation
    codec and the streaming block splitter depend on, stated over `string`
    (a sequence of Unicode scalar values, like a Rust `String`). */
module Text {

  /** `char::is_whitespace`: the Unicode White_Space property. */
  predicate IsWhitespace(c: char)
  {
    ('\t' <= c <= '\r') || c == ' ' || c == '\U{0085}' || c == '\U{00A0}' || c == '\U{1680}'
    || ('\U{2000}' <= c <= '\U{200A}') || c == '\U{2028}' || c == '\U{2029}'
    || c == '\U{202F}' || c == '\U{205F}' || c == '\U{3000}'
  }

  /** `char::is_control`: the Unicode general category Cc. */
  predicate IsControl(c: char)
  {
    c <= '\U{001F}' || ('\U{007F}' <= c <= '\U{009F}')
  }

  /** `str::starts_with` with a string pattern. */
  predicate StartsWith(s: string, prefix: string)
  {
    |prefix| <= |s| && s[..|prefix|] == prefix
  }

  /** `str::contains` with a string pattern. */
  predicate Contains(s: string, sub: string)
    decreases |s|
  {
    StartsWith(s, sub) || (|s| > 0 && Contains(s[1..], sub))
  }

  /** `str::trim_start`: drops the leading whitespace. */
  function TrimStart(s: string): (r: string)
    ensures |r| <= |s| && r == s[|s| - |r|..]
    ensures r == [] || !IsWhitespace(r[0])
    ensures forall k :: 0 <= k < |s| - |r| ==> IsWhitespace(s[k])
    decreases |s|
  {
    if s != [] && IsWhitespace(s[0]) then TrimStart(s[1..]) else s
  }

  /** `str::trim_end`: drops the trailing whitespace. */
  function TrimEnd(s: string): (r: string)
    ensures |r| <= |s| && r == s[..|r|]
    ensures r == [] || !IsWhitespace(r[|r| - 1])
    ensures forall k :: |r| <= k < |s| ==> IsWhitespace(s[k])
    decreases |s|
  {
    if s != [] && IsWhitespace(s[|s| - 1]) then TrimEnd(s[..|s| - 1]) else s
  }

  /** `str::trim`: `s` without the whitespace at either end. */
  function Trim(s: string): (r: string)
    ensures |r| <= |s|
    ensures r == [] || (!IsWhitespace(r[0]) && !IsWhitespace(r[|r| - 1]))
  {
    TrimEnd(TrimStart(s))
  }

  /** Trimming only cuts characters away from the ends. */
  lemma TrimIsInfix(s: string)
    ensures var a := |s| - |TrimStart(s)|;
            a + |Trim(s)| <= |s| && Trim(s) == s[a..a + |Trim(s)|]
  {
  }

  /** A line is blank when it holds whitespace only. */
  predicate IsBlank(l: string)
  {
    forall k :: 0 <= k < |l| ==> IsWhitespace(l[k])
  }

  /** Blank is what `l.trim().is_empty()` tests. */
  lemma BlankIsTrimmedEmpty(l: string)
    ensures IsBlank(l) <==> Trim(l) == []
  {
    var t := TrimStart(l);
    if t != [] {
      assert !IsWhitespace(t[0]) && TrimEnd(t) != [];
      assert t[0] == l[|l| - |t|];
    }
  }

  /** Trimming leaves a string alone when neither end is whitespace. */
  lemma TrimUnchanged(s: string)
    requires s == [] || (!IsWhitespace(s[0]) && !IsWhitespace(s[|s| - 1]))
    ensures Trim(s) == s
  {
    assert TrimStart(s) == s;
  }

  /** A text that starts with a pattern that has no whitespace at either
      end still starts with it once trimmed. */
  lemma TrimKeepsStart(s: string, p: string)
    requires StartsWith(s, p) && p != []
    requires !IsWhitespace(p[0]) && !IsWhitespace(p[|p| - 1])
    ensures StartsWith(Trim(s), p)
  {
    assert TrimStart(s) == s;
    var r := TrimEnd(s);
    assert s[|p| - 1] == p[|p| - 1];
    assert |r| >= |p|;
    assert r[..|p|] == s[..|p|];
  }

  /** `str::trim_start_matches` with a non-empty string pattern: removes
      the pattern from the front as often as it occurs there. */
  function TrimStartMatches(s: string, pattern: string): (r: string)
    requires pattern != []
    ensures |r| <= |s| && r == s[|s| - |r|..]
    ensures !StartsWith(r, pattern)
    decreases |s|
  {
    if StartsWith(s, pattern) then TrimStartMatches(s[|pattern|..], pattern) else s
  }

  /** Index of the first `c` in `s`, or `|s|` when there is none. */
  function IndexOf(s: string, c: char): (k: nat)
    ensures k <= |s|
    ensures k < |s| ==> s[k] == c
    ensures forall j :: 0 <= j < k ==> s[j] != c
    decreases |s|
  {
    if s == [] || s[0] == c then 0 else 1 + IndexOf(s[1..], c)
  }

  /** The three facts in the contract of `IndexOf` pin it down. */
  lemma IndexOfIs(s: string, c: char, k: nat)
    requires k <= |s| && (k < |s| ==> s[k] == c)
    requires forall j :: 0 <= j < k ==> s[j] != c
    ensures IndexOf(s, c) == k
  {
  }

  lemma IndexOfAtMost(s: string, c: char, j: nat)
    requires j < |s| && s[j] == c
    ensures IndexOf(s, c) <= j
  {
  }

  lemma IndexOfAppend(a: string, b: string, c: char)
    requires IndexOf(a, c) < |a|
    ensures IndexOf(a + b, c) == IndexOf(a, c)
  {
    IndexOfIs(a + b, c, IndexOf(a, c));
  }

  /** `str::split` on one character: the pieces between the occurrences of
      `sep`, always one more than there are separators. */
  function SplitOn(s: string, sep: char): (r: seq<string>)
    ensures |r| > 0
    ensures forall p :: p in r ==> sep !in p
    decreases |s|
  {
    var k := IndexOf(s, sep);
    if k == |s| then [s] else [s[..k]] + SplitOn(s[k + 1..], sep)
  }

  /** The lines of a text as `split('\n')` gives them, final piece included. */
  function Pieces(s: string): (r: seq<string>)
    ensures |r| > 0
    ensures forall p :: p in r ==> '\n' !in p
  {
    SplitOn(s, '\n')
  }

  /** `slice.join("\n")`. */
  function Join(ls: seq<string>): string
    decreases |ls|
  {
    if |ls| == 0 then [] else if |ls| == 1 then ls[0] else ls[0] + "\n" + Join(ls[1..])
  }

  lemma {:induction false} JoinPieces(s: string)
    ensures Join(Pieces(s)) == s
    decreases |s|
  {
    var k := IndexOf(s, '\n');
    if k < |s| {
      JoinPieces(s[k + 1..]);
      assert s == s[..k] + "\n" + s[k + 1..];
    }
  }

  lemma {:induction false} PiecesJoin(ls: seq<string>)
    requires |ls| > 0
    requires forall k :: 0 <= k < |ls| ==> '\n' !in ls[k]
    ensures Pieces(Join(ls)) == ls
    decreases |ls|
  {
    if |ls| == 1 {
      IndexOfIs(ls[0], '\n', |ls[0]|);
    } else {
      var s := Join(ls);
      assert s == ls[0] + ("\n" + Join(ls[1..]));
      assert forall j :: 0 <= j < |ls[0]| ==> s[j] == ls[0][j];
      IndexOfIs(s, '\n', |ls[0]|);
      assert s[..|ls[0]|] == ls[0];
      assert s[|ls[0]| + 1..] == Join(ls[1..]);
      PiecesJoin(ls[1..]);
    }
  }

  predicate EndsWithCR(l: string)
  {
    |l| > 0 && l[|l| - 1] == '\r'
  }

  /** Drops one `'\r'` from the end of a line that ended in `"\r\n"`. */
  function StripCR(l: string): string
  {
    if EndsWithCR(l) then l[..|l| - 1] else l
  }

  /** `str::lines`: the text cut at each `'\n'`; a line cut there also loses
      one trailing `'\r'`; a final `'\n'` yields no empty last line, and an
      unterminated last line keeps its `'\r'`. */
  function Lines(s: string): seq<string>
    decreases |s|
  {
    if s == [] then []
    else
      var k := IndexOf(s, '\n');
      if k == |s| then [s] else [StripCR(s[..k])] + Lines(s[k + 1..])
  }

  /** No line `str::lines` yields holds a `'\n'`. */
  lemma {:induction false} LinesHaveNoNewline(s: string)
    ensures forall i :: 0 <= i < |Lines(s)| ==> '\n' !in Lines(s)[i]
    decreases |s|
  {
    if s != [] {
      var k := IndexOf(s, '\n');
      if k < |s| {
        LinesHaveNoNewline(s[k + 1..]);
        assert '\n' !in s[..k];
      }
    }
  }

  lemma AppendAssoc<T>(x: seq<T>, y: seq<T>, z: seq<T>)
    ensures x + (y + z) == (x + y) + z
  {
  }

  lemma DropOfAppend(a: string, b: string, i: nat)
    requires i <= |a|
    ensures (a + b)[i..] == a[i..] + b
  {
  }

  /** One step of `Lines` at a text that holds a `'\n'`. */
  lemma LinesStep(s: string, k: nat)
    requires k == IndexOf(s, '\n') && k < |s|
    ensures Lines(s) == [StripCR(s[..k])] + Lines(s[k + 1..])
  {
  }

  /** One step of `Lines` at a text whose first line ends inside `a`. */
  lemma LinesStepAppend(a: string, b: string, k: nat)
    requires k == IndexOf(a, '\n') && k < |a|
    ensures Lines(a + b) == [StripCR(a[..k])] + Lines(a[k + 1..] + b)
  {
    IndexOfAppend(a, b, '\n');
    LinesStep(a + b, k);
    assert (a + b)[..k] == a[..k];
    DropOfAppend(a, b, k + 1);
  }

  /** A text that ends in `'\n'` contributes its own lines, whatever follows. */
  lemma {:induction false} LinesAppend(a: string, b: string)
    requires |a| > 0 && a[|a| - 1] == '\n'
    ensures Lines(a + b) == Lines(a) + Lines(b)
    decreases |a|
  {
    var k := IndexOf(a, '\n');
    IndexOfAtMost(a, '\n', |a| - 1);
    var line := StripCR(a[..k]);
    var rest := a[k + 1..];
    LinesStep(a, k);
    LinesStepAppend(a, b, k);
    if k + 1 == |a| {
      assert rest + b == b && rest == [];
    } else {
      assert rest[|rest| - 1] == a[|a| - 1];
      LinesAppend(rest, b);
      ConsAppend(line, Lines(rest), Lines(b));
    }
  }

  lemma ConsAppend<T>(x: T, l: seq<T>, r: seq<T>)
    ensures [x] + (l + r) == ([x] + l) + r
  {
  }

  /** A line with no `'\n'` in it, terminated, reads back as one line. */
  lemma LinesOfLine(l: string)
    requires '\n' !in l
    ensures Lines(l + "\n") == [StripCR(l)]
  {
    var s := l + "\n";
    IndexOfIs(s, '\n', |l|);
    assert s[..|l|] == l;
    assert s[|l| + 1..] == [];
  }

  /** When no piece ends in `'\r'`, terminating a text and reading it back
      with `str::lines` gives exactly its `'\n'`-separated pieces. */
  lemma {:induction false} LinesOfTerminated(s: string)
    requires forall p :: p in Pieces(s) ==> !EndsWithCR(p)
    ensures Lines(s + "\n") == Pieces(s)
    decreases |s|
  {
    var k := IndexOf(s, '\n');
    if k == |s| {
      assert Pieces(s) == [s];
      LinesOfLine(s);
    } else {
      var t := s + "\n";
      IndexOfAppend(s, "\n", '\n');
      assert t[..k] == s[..k];
      assert t[k + 1..] == s[k + 1..] + "\n";
      LinesStep(t, k);
      assert Pieces(s) == [s[..k]] + Pieces(s[k + 1..]);
      assert s[..k] in Pieces(s);
      assert StripCR(s[..k]) == s[..k];
      forall p | p in Pieces(s[k + 1..]) ensures !EndsWithCR(p) {
        assert p in Pieces(s);
      }
      LinesOfTerminated(s[k + 1..]);
    }
  }

  /** Number of bytes of the UTF-8 encoding of `s` (`str::len`). */
  function Utf8Length(s: string): (n: nat)
    ensures |s| <= n <= 4 * |s|
    decreases |s|
  {
    if s == [] then 0
    else
      var c := s[0] as int;
      (if c < 0x80 then 1 else if c < 0x800 then 2 else if c < 0x1_0000 then 3 else 4)
      + Utf8Length(s[1..])
  }
}
