/** Splitting a document into chunks near a target size: no word lost, reordered or cut. */
module Chunker {
  import opened Text
  import opened Words

  const MIN_TARGET: nat := 400

  function Target(targetChars: nat): nat {
    if targetChars < MIN_TARGET then MIN_TARGET else targetChars
  }

  /** A chunk has words, and is no longer than the target unless it is one long word. */
  predicate GoodChunk(c: string, target: nat) {
    WordsOf(c) != [] && (ByteLen(c) <= target || WordsOf(c) == [c])
  }

  /** `p` is in `c` in one piece. */
  ghost predicate Inside(p: string, c: string) {
    exists before, after :: c == before + p + after
  }

  /** Paragraph `p` is in one chunk in one piece, or in the chunk being built. */
  ghost predicate Kept(p: string, chunks: seq<string>, current: string) {
    Inside(p, current) || exists i :: 0 <= i < |chunks| && Inside(p, chunks[i])
  }

  lemma InsideGrows(p: string, c: string, more: string)
    requires Inside(p, c)
    ensures Inside(p, c + more)
  {
    var before, after :| c == before + p + after;
    assert c + more == before + p + (after + more);
  }

  lemma InsideAtEnd(p: string, front: string)
    ensures Inside(p, front + p)
  {
    assert front + p == front + p + [];
  }

  lemma KeptWhenClosed(p: string, chunks: seq<string>, current: string)
    requires Kept(p, chunks, current)
    ensures Kept(p, chunks + [current], [])
  {
    var closed := chunks + [current];
    if Inside(p, current) {
      assert closed[|chunks|] == current;
    } else {
      var i :| 0 <= i < |chunks| && Inside(p, chunks[i]);
      assert closed[i] == chunks[i];
    }
  }

  lemma KeptWhenGrown(p: string, chunks: seq<string>, current: string, more: string)
    requires Kept(p, chunks, current)
    ensures Kept(p, chunks, current + more)
  {
    if Inside(p, current) {
      InsideGrows(p, current, more);
    }
  }

  /** Joining to a chunk under construction, with a white separator unless it is empty. */
  function Joined(current: string, separator: string, piece: string): string {
    if current == [] then piece else current + separator + piece
  }

  lemma JoinedWords(current: string, separator: string, piece: string)
    requires separator != [] && IsBlank(separator)
    ensures WordsOf(Joined(current, separator, piece)) == WordsOf(current) + WordsOf(piece)
    ensures ByteLen(Joined(current, separator, piece))
            == if current == [] then ByteLen(piece) else ByteLen(current) + ByteLen(separator) + ByteLen(piece)
  {
    if current != [] {
      WordsOfSeparated(current, separator, piece);
      ByteLenOfJoin(current + separator, piece);
      ByteLenOfJoin(current, separator);
    }
  }

  // ---------------------------------------------------------------- what the loops keep

  /** The chunks and the one being built hold exactly the words `done`, and all are good. */
  ghost predicate Progress(done: seq<string>, chunks: seq<string>, current: string, target: nat) {
    && AllWords(chunks) + WordsOf(current) == done
    && (forall i :: 0 <= i < |chunks| ==> GoodChunk(chunks[i], target))
    && (current == [] || GoodChunk(current, target))
  }

  lemma CloseKeepsProgress(done: seq<string>, chunks: seq<string>, current: string, target: nat)
    requires Progress(done, chunks, current, target) && current != []
    ensures Progress(done, chunks + [current], [], target)
  {
    AllWordsOfJoin(chunks, [current]);
    AllWordsOfOne(current);
  }

  lemma GrowKeepsProgress(done: seq<string>, chunks: seq<string>, current: string, target: nat, separator: string,
                          piece: string)
    requires Progress(done, chunks, current, target)
    requires separator != [] && IsBlank(separator) && WordsOf(piece) != []
    requires ByteLen(Joined(current, separator, piece)) <= target || (current == [] && WordsOf(piece) == [piece])
    ensures Progress(done + WordsOf(piece), chunks, Joined(current, separator, piece), target)
  {
    var joined := Joined(current, separator, piece);
    JoinedWords(current, separator, piece);
    Associative(AllWords(chunks), WordsOf(current), WordsOf(piece));
    assert GoodChunk(joined, target) by {
      if current == [] {
        assert joined == piece;
      } else {
        assert |WordsOf(joined)| > 0;
      }
    }
  }

  /** No two neighbouring chunks would have fitted into one. */
  ghost predicate Tight(chunks: seq<string>, current: string, target: nat) {
    && (forall i :: 0 <= i < |chunks| - 1 ==> ByteLen(chunks[i]) + 2 + ByteLen(chunks[i + 1]) > target)
    && (chunks != [] && current != [] ==> ByteLen(chunks[|chunks| - 1]) + 2 + ByteLen(current) > target)
  }

  /** The trimmed paragraphs the loop does something with. */
  predicate Counts(paragraph: string, target: nat) {
    Trim(paragraph) != [] && ByteLen(Trim(paragraph)) <= target
  }

  ghost predicate AllKept(paragraphs: seq<string>, n: nat, chunks: seq<string>, current: string, target: nat)
    requires n <= |paragraphs|
  {
    forall i :: 0 <= i < n && Counts(paragraphs[i], target) ==> Kept(Trim(paragraphs[i]), chunks, current)
  }

  lemma AllKeptWhenClosed(paragraphs: seq<string>, n: nat, chunks: seq<string>, current: string, target: nat)
    requires n <= |paragraphs| && AllKept(paragraphs, n, chunks, current, target)
    ensures AllKept(paragraphs, n, chunks + [current], [], target)
  {
    forall i | 0 <= i < n && Counts(paragraphs[i], target)
      ensures Kept(Trim(paragraphs[i]), chunks + [current], [])
    {
      KeptWhenClosed(Trim(paragraphs[i]), chunks, current);
    }
  }

  lemma AllKeptWhenGrown(paragraphs: seq<string>, n: nat, chunks: seq<string>, current: string, target: nat,
                         separator: string, piece: string)
    requires n <= |paragraphs| && AllKept(paragraphs, n, chunks, current, target)
    ensures AllKept(paragraphs, n, chunks, Joined(current, separator, piece), target)
  {
    forall i | 0 <= i < n && Counts(paragraphs[i], target)
      ensures Kept(Trim(paragraphs[i]), chunks, Joined(current, separator, piece))
    {
      var p := Trim(paragraphs[i]);
      if current == [] {
        assert !Inside(p, current);
      } else {
        KeptWhenGrown(p, chunks, current, separator + piece);
        assert current + separator + piece == current + (separator + piece);
      }
    }
  }

  /** All the loops keep: the words so far, and the paragraphs so far in one piece. */
  ghost predicate Sound(paragraphs: seq<string>, n: nat, done: seq<string>, chunks: seq<string>, current: string,
                        target: nat) {
    && n <= |paragraphs|
    && Progress(done, chunks, current, target)
    && AllKept(paragraphs, n, chunks, current, target)
  }

  lemma CloseKeepsSound(paragraphs: seq<string>, n: nat, done: seq<string>, chunks: seq<string>, current: string,
                        target: nat)
    requires Sound(paragraphs, n, done, chunks, current, target) && current != []
    ensures Sound(paragraphs, n, done, chunks + [current], [], target)
  {
    CloseKeepsProgress(done, chunks, current, target);
    AllKeptWhenClosed(paragraphs, n, chunks, current, target);
  }

  lemma GrowKeepsSound(
    paragraphs: seq<string>, n: nat, done: seq<string>, chunks: seq<string>, current: string, target: nat,
    separator: string, piece: string, after: string)
    requires Sound(paragraphs, n, done, chunks, current, target)
    requires separator != [] && IsBlank(separator) && WordsOf(piece) != []
    requires after == Joined(current, separator, piece)
    requires if current == [] then ByteLen(piece) <= target || WordsOf(piece) == [piece]
             else ByteLen(current) + ByteLen(separator) + ByteLen(piece) <= target
    ensures Sound(paragraphs, n, done + WordsOf(piece), chunks, after, target)
  {
    JoinedWords(current, separator, piece);
    GrowKeepsProgress(done, chunks, current, target, separator, piece);
    AllKeptWhenGrown(paragraphs, n, chunks, current, target, separator, piece);
  }

  lemma OneMoreWord(done: seq<string>, words: seq<string>, i: nat)
    requires i < |words| && IsWord(words[i])
    ensures (done + words[..i]) + WordsOf(words[i]) == done + words[..i + 1]
    ensures WordsOf(words[i]) == [words[i]]
  {
    WordIsItsOwnWords(words[i]);
  }

  /** The words with a single space between each and the next. */
  function Spaced(words: seq<string>): string {
    if words == [] then []
    else if |words| == 1 then words[0]
    else Spaced(words[..|words| - 1]) + " " + words[|words| - 1]
  }

  /** Nothing but words and single spaces. */
  predicate SingleSpaced(c: string) {
    c == Spaced(WordsOf(c))
  }

  lemma SpaceOneMore(current: string, word: string, after: string)
    requires IsWord(word) && SingleSpaced(current) && after == Joined(current, " ", word)
    requires current == [] || WordsOf(current) != []
    ensures SingleSpaced(after)
  {
    WordIsItsOwnWords(word);
    JoinedWords(current, " ", word);
    var words := WordsOf(current) + [word];
    assert words[..|words| - 1] == WordsOf(current);
  }

  /** All chunks from the `n`-th on, and the one being built, hold nothing but words and single spaces. */
  predicate SpacedFrom(chunks: seq<string>, n: nat, current: string) {
    (forall i :: n <= i < |chunks| ==> SingleSpaced(chunks[i])) && SingleSpaced(current)
  }

  // ---------------------------------------------------------------- small paragraphs stay as they are

  /** The trimmed paragraphs that are not empty. */
  function Solid(paragraphs: seq<string>): seq<string> {
    if paragraphs == [] then []
    else
      var last := Trim(paragraphs[|paragraphs| - 1]);
      Solid(paragraphs[..|paragraphs| - 1]) + if last == [] then [] else [last]
  }

  function WithCurrent(chunks: seq<string>, current: string): seq<string> {
    if current == [] then chunks else chunks + [current]
  }

  /** Put together, the chunks and the one being built read like the paragraphs put together. */
  predicate Verbatim(chunks: seq<string>, current: string, solid: seq<string>) {
    && (WithCurrent(chunks, current) == [] <==> solid == [])
    && Join(WithCurrent(chunks, current)) == Join(solid)
  }

  lemma GrowKeepsVerbatim(chunks: seq<string>, before: string, solid: seq<string>, paragraph: string, after: string)
    requires Verbatim(chunks, before, solid) && paragraph != [] && after == Joined(before, "\n\n", paragraph)
    ensures Verbatim(chunks, after, solid + [paragraph])
  {
    JoinOneMore(solid, paragraph);
    JoinOneMore(chunks, after);
    if before != [] {
      JoinOneMore(chunks, before);
      if chunks != [] {
        Regroup(Join(chunks) + "\n\n", before, "\n\n", paragraph);
      }
    }
  }

  lemma Regroup(a: string, b: string, c: string, d: string)
    ensures a + (b + c + d) == a + b + c + d
  {
  }

  lemma SolidOneMore(paragraphs: seq<string>, n: nat)
    requires n < |paragraphs|
    ensures Solid(paragraphs[..n + 1]) ==
            Solid(paragraphs[..n]) + if Trim(paragraphs[n]) == [] then [] else [Trim(paragraphs[n])]
  {
    assert paragraphs[..n + 1][..n] == paragraphs[..n];
  }

  // ---------------------------------------------------------------- the algorithm

  /** Adds the words of an oversized paragraph one by one, starting a new chunk when the next does not fit. */
  method AddWords(
    ghost paragraphs: seq<string>, ghost n: nat, ghost done: seq<string>, words: seq<string>,
    target: nat, chunks0: seq<string>, current0: string) returns (chunks: seq<string>, current: string)
    requires Sound(paragraphs, n, done, chunks0, current0, target) && current0 == []
    requires forall i :: 0 <= i < |words| ==> IsWord(words[i])
    ensures Sound(paragraphs, n, done + words, chunks, current, target)
    ensures chunks0 <= chunks && SpacedFrom(chunks, |chunks0|, current)
  {
    chunks, current := chunks0, current0;
    assert done + words[..0] == done;
    for i := 0 to |words|
      invariant Sound(paragraphs, n, done + words[..i], chunks, current, target)
      invariant chunks0 <= chunks && SpacedFrom(chunks, |chunks0|, current)
    {
      var word := words[i];
      if ByteLen(current) + ByteLen(word) + 1 > target && current != [] {
        CloseKeepsSound(paragraphs, n, done + words[..i], chunks, current, target);
        chunks, current := chunks + [current], [];
      }
      ghost var before := current;
      if current != [] {
        current := current + " ";
      }
      current := current + word;
      OneMoreWord(done, words, i);
      assert current == Joined(before, " ", word);
      SpaceOneMore(before, word, current);
      GrowKeepsSound(paragraphs, n, done + words[..i], chunks, before, target, " ", word, current);
    }
    assert words[..|words|] == words;
  }

  /** Every paragraph fits into a chunk. */
  ghost predicate AllSmall(paragraphs: seq<string>, target: nat) {
    forall i :: 0 <= i < |paragraphs| ==> ByteLen(Trim(paragraphs[i])) <= target
  }

  lemma NextParagraph(paragraphs: seq<string>, n: nat, chunks: seq<string>, current: string, target: nat)
    requires n < |paragraphs| && AllKept(paragraphs, n, chunks, current, target)
    requires Counts(paragraphs[n], target) ==> Inside(Trim(paragraphs[n]), current)
    ensures AllKept(paragraphs, n + 1, chunks, current, target)
  {
  }

  lemma OneMoreParagraph(paragraphs: seq<string>, n: nat)
    requires n < |paragraphs|
    ensures AllWords(paragraphs[..n + 1]) == AllWords(paragraphs[..n]) + WordsOf(Trim(paragraphs[n]))
    ensures Trim(paragraphs[n]) == [] <==> WordsOf(Trim(paragraphs[n])) == []
  {
    TrimKeepsWords(paragraphs[n]);
    assert paragraphs[..n + 1][..n] == paragraphs[..n];
  }

  lemma GrowKeepsTight(chunks: seq<string>, current: string, target: nat, separator: string, piece: string,
                       after: string)
    requires Tight(chunks, current, target) && after == Joined(current, separator, piece)
    requires current == [] && chunks != [] ==> ByteLen(chunks[|chunks| - 1]) + 2 + ByteLen(piece) > target
    requires separator != [] && IsBlank(separator)
    ensures Tight(chunks, after, target)
  {
    JoinedWords(current, separator, piece);
  }

  /** After `n` paragraphs. Only an oversized paragraph can leave no chunk being built behind finished ones. */
  ghost predicate UpTo(paragraphs: seq<string>, n: nat, chunks: seq<string>, current: string, target: nat) {
    && n <= |paragraphs|
    && Sound(paragraphs, n, AllWords(paragraphs[..n]), chunks, current, target)
    && (AllSmall(paragraphs, target) ==> Tight(chunks, current, target) && (current == [] ==> chunks == []))
    && (AllSmall(paragraphs, target) ==> Verbatim(chunks, current, Solid(paragraphs[..n])))
  }

  /** Closes the chunk being built when the paragraph does not fit behind it. */
  method MakeRoom(ghost paragraphs: seq<string>, ghost n: nat, paragraph: string, target: nat, chunks0: seq<string>,
                  current0: string)
    returns (chunks: seq<string>, current: string)
    requires UpTo(paragraphs, n, chunks0, current0, target)
    ensures n <= |paragraphs| && Sound(paragraphs, n, AllWords(paragraphs[..n]), chunks, current, target)
    ensures current != [] ==> ByteLen(current) + 2 + ByteLen(paragraph) <= target
    ensures AllSmall(paragraphs, target) ==>
      Tight(chunks, current, target)
      && (current == [] && chunks != [] ==> ByteLen(chunks[|chunks| - 1]) + 2 + ByteLen(paragraph) > target)
      && Verbatim(chunks, current, Solid(paragraphs[..n]))
  {
    chunks, current := chunks0, current0;
    if ByteLen(current) + ByteLen(paragraph) + 2 > target && current != [] {
      CloseKeepsSound(paragraphs, n, AllWords(paragraphs[..n]), chunks, current, target);
      chunks, current := chunks + [current], [];
    }
  }

  lemma ParagraphAdded(
    paragraphs: seq<string>, n: nat, chunks: seq<string>, before: string, target: nat, paragraph: string, after: string)
    requires n < |paragraphs| && paragraph == Trim(paragraphs[n]) && paragraph != [] && ByteLen(paragraph) <= target
    requires Sound(paragraphs, n, AllWords(paragraphs[..n]), chunks, before, target)
    requires before != [] ==> ByteLen(before) + 2 + ByteLen(paragraph) <= target
    requires AllSmall(paragraphs, target) ==>
      Tight(chunks, before, target)
      && (before == [] && chunks != [] ==> ByteLen(chunks[|chunks| - 1]) + 2 + ByteLen(paragraph) > target)
      && Verbatim(chunks, before, Solid(paragraphs[..n]))
    requires after == Joined(before, "\n\n", paragraph)
    ensures UpTo(paragraphs, n + 1, chunks, after, target)
  {
    OneMoreParagraph(paragraphs, n);
    LineBreaks();
    GrowKeepsSound(paragraphs, n, AllWords(paragraphs[..n]), chunks, before, target, "\n\n", paragraph, after);
    InsideAtEnd(paragraph, if before == [] then [] else before + "\n\n");
    NextParagraph(paragraphs, n, chunks, after, target);
    if AllSmall(paragraphs, target) {
      GrowKeepsTight(chunks, before, target, "\n\n", paragraph, after);
      SolidOneMore(paragraphs, n);
      GrowKeepsVerbatim(chunks, before, Solid(paragraphs[..n]), paragraph, after);
    }
  }

  lemma BlankAdded(paragraphs: seq<string>, n: nat, chunks: seq<string>, current: string, target: nat)
    requires n < |paragraphs| && Trim(paragraphs[n]) == [] && UpTo(paragraphs, n, chunks, current, target)
    ensures UpTo(paragraphs, n + 1, chunks, current, target)
  {
    OneMoreParagraph(paragraphs, n);
    SolidOneMore(paragraphs, n);
    assert AllWords(paragraphs[..n]) + [] == AllWords(paragraphs[..n]);
    assert Solid(paragraphs[..n]) + [] == Solid(paragraphs[..n]);
    NextParagraph(paragraphs, n, chunks, current, target);
  }

  lemma OversizedAdded(paragraphs: seq<string>, n: nat, chunks: seq<string>, current: string, target: nat)
    requires n < |paragraphs| && ByteLen(Trim(paragraphs[n])) > target
    requires Sound(paragraphs, n, AllWords(paragraphs[..n]) + WordsOf(Trim(paragraphs[n])), chunks, current, target)
    ensures UpTo(paragraphs, n + 1, chunks, current, target)
  {
    OneMoreParagraph(paragraphs, n);
    assert !AllSmall(paragraphs, target);
    NextParagraph(paragraphs, n, chunks, current, target);
  }

  lemma LineBreaks()
    ensures IsBlank("\n\n") && ByteLen("\n\n") == 2
  {
    assert "\n\n"[1..] == "\n";
  }

  /** One round of the outer loop. */
  method AddParagraph(paragraphs: seq<string>, n: nat, target: nat, chunks0: seq<string>, current0: string)
    returns (chunks: seq<string>, current: string)
    requires n < |paragraphs| && UpTo(paragraphs, n, chunks0, current0, target)
    ensures UpTo(paragraphs, n + 1, chunks, current, target)
  {
    var paragraph := Trim(paragraphs[n]);
    if paragraph == [] {
      BlankAdded(paragraphs, n, chunks0, current0, target);
      return chunks0, current0;
    }
    chunks, current := MakeRoom(paragraphs, n, paragraph, target, chunks0, current0);
    if ByteLen(paragraph) > target {
      WordsAreWords(paragraph);
      chunks, current :=
        AddWords(paragraphs, n, AllWords(paragraphs[..n]), WordsOf(paragraph), target, chunks, current);
      OversizedAdded(paragraphs, n, chunks, current, target);
    } else {
      ghost var before := current;
      if current != [] {
        current := current + "\n\n";
      }
      current := current + paragraph;
      ParagraphAdded(paragraphs, n, chunks, before, target, paragraph, current);
    }
  }

  /** The words of all paragraphs, each small paragraph in one chunk in one piece. */
  ghost predicate Chunked(paragraphs: seq<string>, chunks: seq<string>, target: nat) {
    && AllWords(chunks) == AllWords(paragraphs)
    && (forall i :: 0 <= i < |chunks| ==> GoodChunk(chunks[i], target))
    && (forall i :: 0 <= i < |paragraphs| && Counts(paragraphs[i], target) ==> InOneChunk(Trim(paragraphs[i]), chunks))
    && (AllSmall(paragraphs, target) ==> Tight(chunks, [], target) && Join(chunks) == Join(Solid(paragraphs)))
  }

  ghost predicate InOneChunk(p: string, chunks: seq<string>) {
    exists i :: 0 <= i < |chunks| && Inside(p, chunks[i])
  }

  lemma AllClosed(paragraphs: seq<string>, chunks: seq<string>, target: nat)
    requires Sound(paragraphs, |paragraphs|, AllWords(paragraphs), chunks, [], target)
    requires AllSmall(paragraphs, target) ==> Tight(chunks, [], target) && Join(chunks) == Join(Solid(paragraphs))
    ensures Chunked(paragraphs, chunks, target)
  {
    forall i | 0 <= i < |paragraphs| && Counts(paragraphs[i], target) ensures InOneChunk(Trim(paragraphs[i]), chunks) {
      assert Kept(Trim(paragraphs[i]), chunks, []);
      assert !Inside(Trim(paragraphs[i]), []);
    }
  }

  /**
   * The words of the chunks in order are the words of the text; no chunk is without words; each is at
   * most max(target, 400) bytes or a single longer word. Whatever the pieces are that the text is cut
   * into at its double line breaks: a piece that fits is in one chunk in one piece; and when all fit,
   * no two neighbouring chunks could have been one, and the chunks put together read like the trimmed
   * pieces put together.
   */
  method Chunk(text: string, targetChars: nat) returns (chunks: seq<string>)
    ensures AllWords(chunks) == WordsOf(text)
    ensures forall pieces :: LeftmostSplit(text, pieces) ==>
      Chunked(pieces, chunks, if targetChars < 400 then 400 else targetChars)
  {
    var target := Target(targetChars);
    var paragraphs := Paragraphs(text);
    var current := [];
    chunks := [];
    for n := 0 to |paragraphs|
      invariant UpTo(paragraphs, n, chunks, current, target)
    {
      chunks, current := AddParagraph(paragraphs, n, target, chunks, current);
    }
    ParagraphsKeepWords(text);
    LastChunkCloses(paragraphs, chunks, current, target);
    if Trim(current) != [] {
      chunks := chunks + [current];
    }
    forall pieces | LeftmostSplit(text, pieces) ensures Chunked(pieces, chunks, target) {
      SplitIsUnique(text, pieces);
    }
  }

  /** What is still being built at the end becomes the last chunk, unless there is nothing in it. */
  lemma LastChunkCloses(paragraphs: seq<string>, chunks: seq<string>, current: string, target: nat)
    requires UpTo(paragraphs, |paragraphs|, chunks, current, target)
    ensures Chunked(paragraphs, if Trim(current) != [] then chunks + [current] else chunks, target)
  {
    assert paragraphs[..|paragraphs|] == paragraphs;
    TrimKeepsWords(current);
    if Trim(current) != [] {
      CloseKeepsSound(paragraphs, |paragraphs|, AllWords(paragraphs), chunks, current, target);
      AllClosed(paragraphs, chunks + [current], target);
    } else {
      assert current == [];
      AllClosed(paragraphs, chunks, target);
    }
  }
}
