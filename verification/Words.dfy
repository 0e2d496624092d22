/** Words, trimming, paragraph breaks and byte lengths of text, and how they behave under joining. */
module Words {
  import opened Text

  /** Among ASCII the white characters are tab, line feed, vertical tab, form feed, carriage return, space. */
  lemma AsciiWhite(c: char)
    requires c as int < 0x80
    ensures IsWhitespace(c) <==> c as int in {9, 10, 11, 12, 13, 32}
  {
  }

  // ---------------------------------------------------------------- byte length

  function Utf8Len(c: char): nat {
    var n := c as int;
    if n < 0x80 then 1 else if n < 0x800 then 2 else if n < 0x1_0000 then 3 else 4
  }

  function ByteLen(s: string): nat {
    if s == [] then 0 else Utf8Len(s[0]) + ByteLen(s[1..])
  }

  lemma {:induction false} ByteLenOfJoin(a: string, b: string)
    ensures ByteLen(a + b) == ByteLen(a) + ByteLen(b)
  {
    if a == [] {
      assert a + b == b;
    } else {
      assert (a + b)[1..] == a[1..] + b;
      ByteLenOfJoin(a[1..], b);
    }
  }

  /** One byte per ASCII character, at most four for any: as many bytes as characters exactly for ASCII. */
  lemma {:induction false} ByteLenBounds(s: string)
    ensures |s| <= ByteLen(s) <= 4 * |s|
    ensures ByteLen(s) == |s| <==> forall i :: 0 <= i < |s| ==> s[i] as int < 0x80
  {
    if s != [] {
      ByteLenBounds(s[1..]);
      assert forall i :: 1 <= i < |s| ==> s[i] == s[1..][i - 1];
    }
  }

  // ---------------------------------------------------------------- words

  /** The length of the leading run of non-white characters. */
  function LeadingWord(s: string): (n: nat)
    ensures n <= |s|
  {
    if s == [] || IsWhitespace(s[0]) then 0 else 1 + LeadingWord(s[1..])
  }

  /** The maximal runs of non-white characters, in order. */
  function WordsOf(s: string): seq<string>
    decreases |s|
  {
    if s == [] then []
    else if IsWhitespace(s[0]) then WordsOf(s[1..])
    else
      var n := LeadingWord(s);
      [s[..n]] + WordsOf(s[n..])
  }

  predicate IsWord(w: string) {
    w != [] && forall i :: 0 <= i < |w| ==> !IsWhitespace(w[i])
  }

  lemma {:induction false} LeadingWordShape(s: string)
    ensures forall i :: 0 <= i < LeadingWord(s) ==> !IsWhitespace(s[i])
    ensures LeadingWord(s) < |s| ==> IsWhitespace(s[LeadingWord(s)])
  {
    if s != [] && !IsWhitespace(s[0]) {
      LeadingWordShape(s[1..]);
      assert forall i :: 1 <= i < |s| ==> s[i] == s[1..][i - 1];
    }
  }

  lemma LeadingWordIs(s: string, n: nat)
    requires n <= |s| && forall i :: 0 <= i < n ==> !IsWhitespace(s[i])
    requires n < |s| ==> IsWhitespace(s[n])
    ensures LeadingWord(s) == n
  {
    LeadingWordShape(s);
  }

  /** No word lies across the seam of `a` and `b`. */
  predicate CleanSeam(a: string, b: string) {
    a == [] || b == [] || IsWhitespace(a[|a| - 1]) || IsWhitespace(b[0])
  }

  lemma {:induction false} LeadingWordOfJoin(a: string, b: string)
    requires CleanSeam(a, b) && a != []
    ensures LeadingWord(a + b) == LeadingWord(a)
  {
    assert (a + b)[0] == a[0];
    if !IsWhitespace(a[0]) {
      assert (a + b)[1..] == a[1..] + b;
      if |a| == 1 {
        assert a[1..] + b == b;
      } else {
        LeadingWordOfJoin(a[1..], b);
      }
    }
  }

  lemma CutJoin(a: string, b: string, n: nat)
    requires 0 < n <= |a|
    ensures (a + b)[0] == a[0] && (a + b)[..n] == a[..n] && (a + b)[n..] == a[n..] + b
  {
  }

  lemma {:induction false} WordsOfJoin(a: string, b: string)
    requires CleanSeam(a, b)
    ensures WordsOf(a + b) == WordsOf(a) + WordsOf(b)
    decreases |a|
  {
    if a == [] {
      assert a + b == b;
    } else if IsWhitespace(a[0]) {
      assert (a + b)[1..] == a[1..] + b;
      WordsOfJoin(a[1..], b);
    } else {
      var n := LeadingWord(a);
      LeadingWordOfJoin(a, b);
      CutJoin(a, b, n);
      WordsOfJoin(a[n..], b);
      Associative([a[..n]], WordsOf(a[n..]), WordsOf(b));
    }
  }

  lemma WordIsItsOwnWords(w: string)
    requires IsWord(w)
    ensures WordsOf(w) == [w]
  {
    LeadingWordIs(w, |w|);
    assert w[..|w|] == w;
    assert WordsOf(w[|w|..]) == [];
  }

  lemma {:induction false} WordsAreWords(s: string)
    ensures forall w :: w in WordsOf(s) ==> IsWord(w)
    decreases |s|
  {
    if s != [] {
      if IsWhitespace(s[0]) {
        WordsAreWords(s[1..]);
      } else {
        LeadingWordShape(s);
        WordsAreWords(s[LeadingWord(s)..]);
      }
    }
  }

  lemma {:induction false} BlankIffNoWords(s: string)
    ensures IsBlank(s) <==> WordsOf(s) == []
    decreases |s|
  {
    if s != [] && IsWhitespace(s[0]) {
      BlankIffNoWords(s[1..]);
      assert forall i :: 1 <= i < |s| ==> s[i] == s[1..][i - 1];
    }
  }

  lemma WordsOfSeparated(a: string, separator: string, b: string)
    requires separator != [] && IsBlank(separator)
    ensures WordsOf(a + separator + b) == WordsOf(a) + WordsOf(b)
  {
    var front := a + separator;
    assert IsWhitespace(separator[0]) && IsWhitespace(separator[|separator| - 1]);
    assert front[|front| - 1] == separator[|separator| - 1];
    BlankIffNoWords(separator);
    WordsOfJoin(a, separator);
    WordsOfJoin(front, b);
  }

  // ---------------------------------------------------------------- trimming

  function TrimStart(s: string): string {
    if s != [] && IsWhitespace(s[0]) then TrimStart(s[1..]) else s
  }

  function TrimEnd(s: string): string {
    if s != [] && IsWhitespace(s[|s| - 1]) then TrimEnd(s[..|s| - 1]) else s
  }

  function Trim(s: string): string {
    TrimEnd(TrimStart(s))
  }

  lemma {:induction false} TrimStartKeepsWords(s: string)
    ensures WordsOf(TrimStart(s)) == WordsOf(s)
  {
    if s != [] && IsWhitespace(s[0]) {
      TrimStartKeepsWords(s[1..]);
    }
  }

  lemma {:induction false} TrimEndKeepsWords(s: string)
    ensures WordsOf(TrimEnd(s)) == WordsOf(s)
  {
    if s != [] && IsWhitespace(s[|s| - 1]) {
      var front, last := s[..|s| - 1], s[|s| - 1..];
      TrimEndKeepsWords(front);
      WordsOfJoin(front, last);
      assert front + last == s;
      BlankIffNoWords(last);
    }
  }

  lemma {:induction false} TrimEndIsNotBlank(s: string)
    ensures TrimEnd(s) == [] || !IsBlank(TrimEnd(s))
  {
    if s != [] && IsWhitespace(s[|s| - 1]) {
      TrimEndIsNotBlank(s[..|s| - 1]);
    }
  }

  lemma {:induction false} TrimStartCuts(s: string) returns (lead: string)
    ensures s == lead + TrimStart(s) && IsBlank(lead)
    ensures TrimStart(s) == [] || !IsWhitespace(TrimStart(s)[0])
  {
    lead := [];
    if s != [] && IsWhitespace(s[0]) {
      var rest := TrimStartCuts(s[1..]);
      lead := [s[0]] + rest;
    }
  }

  lemma {:induction false} TrimEndCuts(s: string) returns (trail: string)
    ensures s == TrimEnd(s) + trail && IsBlank(trail)
    ensures TrimEnd(s) == [] || !IsWhitespace(TrimEnd(s)[|TrimEnd(s)| - 1])
    ensures TrimEnd(s) == [] || TrimEnd(s)[0] == s[0]
  {
    trail := [];
    if s != [] && IsWhitespace(s[|s| - 1]) {
      var rest := TrimEndCuts(s[..|s| - 1]);
      trail := rest + [s[|s| - 1]];
    }
  }

  /** Trimming takes away white space at both ends and nothing else. */
  lemma TrimCuts(s: string) returns (lead: string, trail: string)
    ensures s == lead + Trim(s) + trail && IsBlank(lead) && IsBlank(trail)
    ensures Trim(s) == [] || (!IsWhitespace(Trim(s)[0]) && !IsWhitespace(Trim(s)[|Trim(s)| - 1]))
  {
    lead := TrimStartCuts(s);
    trail := TrimEndCuts(TrimStart(s));
    Associative(lead, Trim(s), trail);
  }

  /** Trimming keeps the words and leaves nothing of a text without words. */
  lemma TrimKeepsWords(s: string)
    ensures WordsOf(Trim(s)) == WordsOf(s)
    ensures Trim(s) == [] <==> WordsOf(s) == []
  {
    TrimStartKeepsWords(s);
    TrimEndKeepsWords(TrimStart(s));
    TrimEndIsNotBlank(TrimStart(s));
    BlankIffNoWords(Trim(s));
  }

  // ---------------------------------------------------------------- paragraphs

  predicate BreakAt(s: string, i: nat) {
    i + 1 < |s| && s[i] == '\n' && s[i + 1] == '\n'
  }

  /** Where the first double line break is, the length of the text if there is none. */
  function FirstBreak(s: string): (i: nat)
    ensures i == |s| || BreakAt(s, i)
  {
    if s == [] then 0 else if BreakAt(s, 0) then 0 else 1 + FirstBreak(s[1..])
  }

  /** The pieces between double line breaks, taken from the left. */
  function Paragraphs(s: string): seq<string>
    decreases |s|
  {
    var i := FirstBreak(s);
    if i == |s| then [s] else [s[..i]] + Paragraphs(s[i + 2..])
  }

  /** The pieces with a double line break between each and the next. */
  function Join(pieces: seq<string>): string {
    if pieces == [] then [] else if |pieces| == 1 then pieces[0] else pieces[0] + "\n\n" + Join(pieces[1..])
  }

  lemma {:induction false} JoinOneMore(pieces: seq<string>, last: string)
    ensures Join(pieces + [last]) == if pieces == [] then last else Join(pieces) + "\n\n" + last
    decreases |pieces|
  {
    var all := pieces + [last];
    if pieces != [] {
      assert all[1..] == pieces[1..] + [last];
      JoinOneMore(pieces[1..], last);
      if |pieces| > 1 {
        var head, tail := pieces[0] + "\n\n", Join(pieces[1..]);
        assert Join(all) == head + (tail + "\n\n" + last);
        assert head + (tail + "\n\n" + last) == head + tail + "\n\n" + last;
      }
    }
  }

  ghost predicate NoBreak(s: string) {
    forall i: nat :: !BreakAt(s, i)
  }

  /** The text cut at its double line breaks, from the left: put together again the pieces are the
      text, none holds a double line break, and none but the last ends in a line break. */
  ghost predicate LeftmostSplit(s: string, pieces: seq<string>) {
    && pieces != [] && Join(pieces) == s
    && (forall i :: 0 <= i < |pieces| ==> NoBreak(pieces[i]))
    && (forall i :: 0 <= i < |pieces| - 1 ==> pieces[i] == [] || pieces[i][|pieces[i]| - 1] != '\n')
  }

  /** No double line break starts before the first one. */
  lemma {:induction false} FirstBreakIsFirst(s: string, i: nat)
    ensures BreakAt(s, i) ==> FirstBreak(s) <= i
    decreases |s|
  {
    if s != [] && !BreakAt(s, 0) && i > 0 {
      FirstBreakIsFirst(s[1..], i - 1);
      assert BreakAt(s, i) ==> BreakAt(s[1..], i - 1);
    }
  }

  lemma FrontHasNoBreak(s: string)
    ensures var i := FirstBreak(s);
            NoBreak(s[..i]) && (i < |s| ==> i == 0 || s[i - 1] != '\n')
  {
    var n := FirstBreak(s);
    forall i: nat ensures !BreakAt(s[..n], i) {
      FirstBreakIsFirst(s, i);
    }
    if 0 < n < |s| {
      FirstBreakIsFirst(s, n - 1);
    }
  }

  /** What the paragraphs are. */
  lemma {:induction false} ParagraphsSplit(s: string)
    ensures LeftmostSplit(s, Paragraphs(s))
    decreases |s|
  {
    var i := FirstBreak(s);
    FrontHasNoBreak(s);
    if i == |s| {
      assert s[..i] == s;
    } else {
      ParagraphsSplit(s[i + 2..]);
      PrependSplit(s[..i], s[i + 2..], Paragraphs(s[i + 2..]));
      assert s == s[..i] + "\n\n" + s[i + 2..];
    }
  }

  lemma PrependSplit(head: string, rest: string, pieces: seq<string>)
    requires NoBreak(head) && (head == [] || head[|head| - 1] != '\n') && LeftmostSplit(rest, pieces)
    ensures LeftmostSplit(head + "\n\n" + rest, [head] + pieces)
  {
    var all := [head] + pieces;
    assert all[1..] == pieces;
    forall i | 0 <= i < |all| ensures NoBreak(all[i]) {
      assert i > 0 ==> all[i] == pieces[i - 1];
    }
    forall i | 0 <= i < |all| - 1 ensures all[i] == [] || all[i][|all[i]| - 1] != '\n' {
      assert i > 0 ==> all[i] == pieces[i - 1];
    }
  }

  /** And nothing else is. */
  lemma {:induction false} SplitIsUnique(s: string, pieces: seq<string>)
    requires LeftmostSplit(s, pieces)
    ensures pieces == Paragraphs(s)
    decreases |s|
  {
    var head := pieces[0];
    if |pieces| == 1 {
      assert FirstBreak(s) == |s|;
    } else {
      var rest := Join(pieces[1..]);
      assert s == head + "\n\n" + rest;
      BreakBehind(head, rest);
      assert s[|head| + 2..] == rest && s[..|head|] == head;
      assert forall i :: 0 <= i < |pieces| - 1 ==> pieces[1..][i] == pieces[i + 1];
      SplitIsUnique(rest, pieces[1..]);
      assert pieces == [head] + pieces[1..];
    }
  }

  lemma BreakBehind(head: string, rest: string)
    requires NoBreak(head) && (head == [] || head[|head| - 1] != '\n')
    ensures FirstBreak(head + "\n\n" + rest) == |head|
  {
    var s := head + "\n\n" + rest;
    assert BreakAt(s, |head|);
    FirstBreakIsFirst(s, |head|);
    forall i: nat | i < |head| ensures !BreakAt(s, i) {
      assert !BreakAt(head, i) && s[i] == head[i];
      assert i + 1 < |head| ==> s[i + 1] == head[i + 1];
    }
  }

  function AllWords(pieces: seq<string>): seq<string> {
    if pieces == [] then [] else AllWords(pieces[..|pieces| - 1]) + WordsOf(pieces[|pieces| - 1])
  }

  lemma {:induction false} AllWordsOfJoin(a: seq<string>, b: seq<string>)
    ensures AllWords(a + b) == AllWords(a) + AllWords(b)
  {
    if b == [] {
      assert a + b == a;
    } else {
      assert (a + b)[..|a + b| - 1] == a + b[..|b| - 1];
      AllWordsOfJoin(a, b[..|b| - 1]);
    }
  }

  lemma AllWordsOfOne(s: string)
    ensures AllWords([s]) == WordsOf(s)
  {
    assert [s][..0] == [];
  }

  /** Splitting into paragraphs keeps the words. */
  lemma {:induction false} ParagraphsKeepWords(s: string)
    ensures AllWords(Paragraphs(s)) == WordsOf(s)
    decreases |s|
  {
    var i := FirstBreak(s);
    if i == |s| {
      AllWordsOfOne(s);
    } else {
      var front, gap, rest := s[..i], s[i..i + 2], s[i + 2..];
      assert s == front + (gap + rest);
      WordsOfJoin(gap, rest);
      WordsOfJoin(front, gap + rest);
      BlankIffNoWords(gap);
      ParagraphsKeepWords(rest);
      AllWordsOfJoin([front], Paragraphs(rest));
      AllWordsOfOne(front);
    }
  }
}
