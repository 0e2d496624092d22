/** The write-ahead log file, byte by byte: one encoded record and a newline per
    mutation, and a reader that stops at the first line it cannot parse.  Records
    are of an arbitrary type `R`; the encoder is a parameter described by `Sound`. */
module WalLog {
  type Byte = x: int | 0 <= x < 256
  type Bytes = seq<Byte>

  const NEWLINE: Byte := 10

  /** How one line of the file reads once white space is trimmed: not UTF-8, empty,
      not a record, or a record. */
  datatype Line<R> = NotText | Blank | Garbage | Record(record: R)

  /** The encoder writes every record; the ones not `storable` it writes as something that does
      not parse back. */
  datatype Codec<!R> = Codec(encode: R -> Bytes, classify: Bytes -> Line<R>, storable: R -> bool)

  /** An encoded record is one non-empty line, and parses back exactly when it is storable. */
  predicate ParsesBack<R(==)>(c: Codec<R>, r: R) {
    && c.encode(r) != [] && NEWLINE !in c.encode(r)
    && c.classify(c.encode(r)) == if c.storable(r) then Record(r) else Garbage
  }

  /** No proper prefix of a record parses. */
  predicate CutIsUnparsed<R>(c: Codec<R>, r: R, k: nat) {
    0 < k < |c.encode(r)| ==> c.classify(c.encode(r)[..k]).Garbage? || c.classify(c.encode(r)[..k]).NotText?
  }

  /** A cut record followed by another record on the same line does not parse; it is not even
      text when the cut fell inside a multi-byte character. */
  predicate GlueIsUnparsed<R>(c: Codec<R>, r: R, k: nat, s: R) {
    0 < k <= |c.encode(r)| ==>
      if c.classify(c.encode(r)[..k]).NotText? then c.classify(c.encode(r)[..k] + c.encode(s)).NotText?
      else c.classify(c.encode(r)[..k] + c.encode(s)).Garbage?
  }

  /** What the JSON encoder and its line reader give, unstorable records included. */
  ghost predicate Sound<R(!new)>(c: Codec<R>) {
    && c.classify([]) == Blank
    && (forall r :: ParsesBack(c, r))
    && (forall r, k :: CutIsUnparsed(c, r, k))
    && (forall r, k, s :: GlueIsUnparsed(c, r, k, s))
  }

  /** `Unreadable` is the I/O error `lines()` raises on a line that is not UTF-8. */
  datatype ReadResult<R> = Unreadable | Records(records: seq<R>)

  function LineEnd(file: Bytes): (n: nat)
    ensures n <= |file| && NEWLINE !in file[..n]
    ensures n < |file| ==> file[n] == NEWLINE
  {
    if file == [] || file[0] == NEWLINE then 0 else
      var n := 1 + LineEnd(file[1..]);
      assert file[..n] == [file[0]] + file[1..][..n - 1];
      n
  }

  function AfterLine(file: Bytes): (rest: Bytes)
    ensures file != [] ==> |rest| < |file|
  {
    var n := LineEnd(file);
    if n < |file| then file[n + 1..] else []
  }

  function Prepend<R>(out: seq<R>, rest: ReadResult<R>): ReadResult<R> {
    if rest.Unreadable? then Unreadable else Records(out + rest.records)
  }

  /** The records a file reads back as. */
  function Read<R>(c: Codec<R>, file: Bytes): ReadResult<R>
    decreases |file|
  {
    if file == [] then Records([]) else
      match c.classify(file[..LineEnd(file)])
      case NotText => Unreadable
      case Blank => Read(c, AfterLine(file))
      case Garbage => Records([])
      case Record(r) => Prepend([r], Read(c, AfterLine(file)))
  }

  method ReadWal<R>(c: Codec<R>, file: Bytes) returns (result: ReadResult<R>)
    ensures result == Read(c, file)
  {
    var out: seq<R> := [];
    var rest := file;
    PrependNothing(Read(c, file));
    while rest != []
      invariant Read(c, file) == Prepend(out, Read(c, rest))
      decreases |rest|
    {
      var line, next := c.classify(rest[..LineEnd(rest)]), AfterLine(rest);
      if line.NotText? {
        return Unreadable;
      } else if line.Garbage? {
        PrependEmpty(out);
        return Records(out);
      } else if line.Record? {
        PrependTwice(out, [line.record], Read(c, next));
        out := out + [line.record];
      }
      rest := next;
    }
    PrependEmpty(out);
    return Records(out);
  }

  lemma PrependNothing<R>(rest: ReadResult<R>)
    ensures Prepend([], rest) == rest
  {
    if rest.Records? {
      assert [] + rest.records == rest.records;
    }
  }

  lemma PrependEmpty<R>(out: seq<R>)
    ensures Prepend(out, Records([])) == Records(out)
  {
    assert out + [] == out;
  }

  lemma PrependTwice<R>(a: seq<R>, b: seq<R>, rest: ReadResult<R>)
    ensures Prepend(a, Prepend(b, rest)) == Prepend(a + b, rest)
  {
    if rest.Records? {
      assert a + (b + rest.records) == a + b + rest.records;
    }
  }

  class Wal<R> {
    const codec: Codec<R>
    var file: Bytes

    /** Opening for append keeps whatever is there: a torn tail is not repaired. */
    constructor (codec: Codec<R>, file: Bytes)
      ensures this.codec == codec && this.file == file
    {
      this.codec, this.file := codec, file;
    }

    method Append(r: R)
      modifies this
      ensures file == old(file) + Framed(codec, r)
    {
      var line := codec.encode(r);
      line := line + [NEWLINE];
      file := file + line;
    }

    method Truncate()
      modifies this
      ensures file == []
    {
      file := [];
    }
  }

  // ---- framing ----

  function Framed<R>(c: Codec<R>, r: R): Bytes {
    c.encode(r) + [NEWLINE]
  }

  function FrameAll<R>(c: Codec<R>, rs: seq<R>): Bytes {
    if rs == [] then [] else Framed(c, rs[0]) + FrameAll(c, rs[1..])
  }

  lemma {:induction false} FrameAllConcat<R>(c: Codec<R>, a: seq<R>, b: seq<R>)
    ensures FrameAll(c, a + b) == FrameAll(c, a) + FrameAll(c, b)
  {
    if a == [] {
      assert a + b == b;
    } else {
      assert (a + b)[1..] == a[1..] + b;
      FrameAllConcat(c, a[1..], b);
    }
  }

  lemma FrameAllSnoc<R>(c: Codec<R>, a: seq<R>, r: R)
    ensures FrameAll(c, a + [r]) == FrameAll(c, a) + Framed(c, r)
  {
    FrameAllConcat(c, a, [r]);
    FrameOne(c, r);
  }

  lemma FrameOne<R>(c: Codec<R>, r: R)
    ensures FrameAll(c, [r]) == Framed(c, r)
  {
    assert FrameAll(c, [r]) == Framed(c, r) + FrameAll(c, []);
  }

  lemma LineEndAt(line: Bytes, rest: Bytes)
    requires NEWLINE !in line
    ensures LineEnd(line) == |line|
    ensures LineEnd(line + [NEWLINE] + rest) == |line|
    ensures AfterLine(line) == []
    ensures AfterLine(line + [NEWLINE] + rest) == rest
  {
    var file := line + [NEWLINE] + rest;
    var n := LineEnd(file);
    assert file[|line|] == NEWLINE;
    assert n == |line|;
    assert file[..|line|] == line;
  }

  lemma ReadLine<R>(c: Codec<R>, line: Bytes, rest: Bytes)
    requires NEWLINE !in line
    ensures Read(c, line + [NEWLINE] + rest) ==
            match c.classify(line)
            case NotText => Unreadable
            case Blank => Read(c, rest)
            case Garbage => Records([])
            case Record(r) => Prepend([r], Read(c, rest))
  {
    LineEndAt(line, rest);
    assert (line + [NEWLINE] + rest)[..|line|] == line;
  }

  /** An unterminated line is read like a terminated last one. */
  lemma ReadTail<R>(c: Codec<R>, line: Bytes)
    requires NEWLINE !in line && line != []
    ensures Read(c, line) ==
            match c.classify(line)
            case NotText => Unreadable
            case Blank => Records([])
            case Garbage => Records([])
            case Record(r) => Records([r])
  {
    LineEndAt(line, []);
    assert line[..|line|] == line;
  }

  predicate AllStorable<R>(c: Codec<R>, rs: seq<R>) {
    forall i :: 0 <= i < |rs| ==> c.storable(rs[i])
  }

  /** The records in front of the first unstorable one. */
  function Readable<R>(c: Codec<R>, rs: seq<R>): seq<R> {
    if rs == [] || !c.storable(rs[0]) then [] else [rs[0]] + Readable(c, rs[1..])
  }

  lemma {:induction false} ReadableIsAll<R>(c: Codec<R>, rs: seq<R>)
    ensures |Readable(c, rs)| <= |rs|
    ensures |Readable(c, rs)| == |rs| <==> AllStorable(c, rs)
    ensures AllStorable(c, rs) ==> Readable(c, rs) == rs
  {
    if rs != [] {
      ReadableIsAll(c, rs[1..]);
      assert rs == [rs[0]] + rs[1..];
    }
  }

  /** Complete records in front of any tail are read in order, up to the first unstorable one;
      it hides everything behind it. */
  lemma {:induction false} ReadAfterFrames<R(!new)>(c: Codec<R>, rs: seq<R>, tail: Bytes)
    requires Sound(c)
    ensures Read(c, FrameAll(c, rs) + tail) ==
            if AllStorable(c, rs) then Prepend(rs, Read(c, tail)) else Records(Readable(c, rs))
  {
    if rs == [] {
      assert FrameAll(c, rs) + tail == tail;
      PrependNothing(Read(c, tail));
    } else {
      var line, rest := c.encode(rs[0]), FrameAll(c, rs[1..]) + tail;
      assert ParsesBack(c, rs[0]);
      assert FrameAll(c, rs) + tail == line + [NEWLINE] + rest;
      ReadLine(c, line, rest);
      ReadAfterFrames(c, rs[1..], tail);
      assert rs == [rs[0]] + rs[1..];
      assert AllStorable(c, rs) <==> c.storable(rs[0]) && AllStorable(c, rs[1..]);
      if AllStorable(c, rs) {
        PrependTwice([rs[0]], rs[1..], Read(c, tail));
      }
    }
  }

  /** Framing round trip, a torn append included: the reader returns exactly the complete
      records, the cut one too if only its newline is missing; a cut inside a
      multi-byte character makes the file unreadable. */
  lemma TornRead<R(!new)>(c: Codec<R>, rs: seq<R>, r: R, k: nat)
    requires Sound(c) && k <= |Framed(c, r)|
    ensures Read(c, FrameAll(c, rs) + Framed(c, r)[..k]) ==
            if !AllStorable(c, rs) then Records(Readable(c, rs))
            else if k >= |c.encode(r)| then Records(if c.storable(r) then rs + [r] else rs)
            else if k > 0 && c.classify(c.encode(r)[..k]).NotText? then Unreadable
            else Records(rs)
  {
    var tail := Framed(c, r)[..k];
    assert ParsesBack(c, r) && CutIsUnparsed(c, r, k);
    ReadAfterFrames(c, rs, tail);
    PrependEmpty(rs);
    if k == |Framed(c, r)| {
      assert tail == c.encode(r) + [NEWLINE] + [];
      ReadLine(c, c.encode(r), []);
    } else if k > 0 {
      assert tail == c.encode(r)[..k];
      assert c.encode(r)[..|c.encode(r)|] == c.encode(r);
      ReadTail(c, tail);
    }
  }

  /** Records appended after a cut one share its line, and the reader never gets past it. */
  lemma GluedRead<R(!new)>(c: Codec<R>, rs: seq<R>, r: R, k: nat, more: seq<R>)
    requires Sound(c) && 0 < k <= |c.encode(r)| && more != []
    ensures Read(c, FrameAll(c, rs) + Framed(c, r)[..k] + FrameAll(c, more)) ==
            if !AllStorable(c, rs) then Records(Readable(c, rs))
            else if c.classify(c.encode(r)[..k]).NotText? then Unreadable else Records(rs)
  {
    assert ParsesBack(c, r) && ParsesBack(c, more[0]) && GlueIsUnparsed(c, r, k, more[0]);
    var glued := c.encode(r)[..k] + c.encode(more[0]);
    var rest := FrameAll(c, more[1..]);
    GluedBytes(c, FrameAll(c, rs), r, k, more, glued + [NEWLINE] + rest);
    ReadAfterFrames(c, rs, glued + [NEWLINE] + rest);
    ReadLine(c, glued, rest);
    PrependEmpty(rs);
  }

  lemma GluedBytes<R>(c: Codec<R>, file: Bytes, r: R, k: nat, more: seq<R>, tail: Bytes)
    requires k <= |c.encode(r)| && more != []
    requires tail == c.encode(r)[..k] + c.encode(more[0]) + [NEWLINE] + FrameAll(c, more[1..])
    ensures file + Framed(c, r)[..k] + FrameAll(c, more) == file + tail
  {
    assert Framed(c, r)[..k] == c.encode(r)[..k];
    Regroup(file, c.encode(r)[..k], c.encode(more[0]), FrameAll(c, more[1..]));
  }

  lemma Regroup(file: Bytes, cut: Bytes, line: Bytes, rest: Bytes)
    ensures file + cut + (line + [NEWLINE] + rest) == file + (cut + line + [NEWLINE] + rest)
  {
    assert cut + (line + [NEWLINE] + rest) == cut + line + [NEWLINE] + rest;
    assert file + cut + (line + [NEWLINE] + rest) == file + (cut + (line + [NEWLINE] + rest));
  }

  predicate CleanTail(file: Bytes) {
    file == [] || file[|file| - 1] == NEWLINE
  }

  lemma {:induction false} FramesAreClean<R>(c: Codec<R>, rs: seq<R>)
    ensures CleanTail(FrameAll(c, rs))
  {
    if |rs| > 0 {
      FramesAreClean(c, rs[1..]);
    }
  }

  /** After any torn append, a file that still reads keeps what it held and gains the records
      appended next exactly when its last byte was a newline and every record on the way is
      storable. */
  lemma AppendSurvivesIff<R(!new)>(c: Codec<R>, rs: seq<R>, r: R, k: nat, more: seq<R>)
    requires Sound(c) && k <= |Framed(c, r)| && more != []
    requires Read(c, FrameAll(c, rs) + Framed(c, r)[..k]).Records?
    ensures var file := FrameAll(c, rs) + Framed(c, r)[..k];
            Read(c, file + FrameAll(c, more)) == Records(Read(c, file).records + more)
            <==> CleanTail(file) && AllStorable(c, rs) && AllStorable(c, more) && (k > 0 ==> c.storable(r))
  {
    var file := FrameAll(c, rs) + Framed(c, r)[..k];
    assert ParsesBack(c, r);
    TornRead(c, rs, r, k);
    if k == 0 {
      assert file == FrameAll(c, rs);
      CleanAppendSurvivesIff(c, rs, more);
    } else if k == |Framed(c, r)| {
      FrameAllSnoc(c, rs, r);
      assert file == FrameAll(c, rs + [r]);
      assert AllStorable(c, rs + [r]) <==> AllStorable(c, rs) && c.storable(r) by {
        assert (rs + [r])[|rs|] == r;
        assert forall i :: 0 <= i < |rs| ==> (rs + [r])[i] == rs[i];
      }
      CleanAppendSurvivesIff(c, rs + [r], more);
    } else {
      GluedRead(c, rs, r, k, more);
      CutIsDirty(c, rs, r, k);
      assert |Read(c, file).records| < |Read(c, file).records + more|;
    }
  }

  lemma CutIsDirty<R(!new)>(c: Codec<R>, rs: seq<R>, r: R, k: nat)
    requires Sound(c) && 0 < k <= |c.encode(r)|
    ensures !CleanTail(FrameAll(c, rs) + Framed(c, r)[..k])
  {
    assert ParsesBack(c, r);
    var file := FrameAll(c, rs) + Framed(c, r)[..k];
    assert file[|file| - 1] == c.encode(r)[k - 1];
  }

  lemma CleanAppendSurvivesIff<R(!new)>(c: Codec<R>, rs: seq<R>, more: seq<R>)
    requires Sound(c) && more != []
    ensures CleanTail(FrameAll(c, rs))
    ensures Read(c, FrameAll(c, rs)) == Records(Readable(c, rs))
    ensures Read(c, FrameAll(c, rs) + FrameAll(c, more)) == Records(Readable(c, rs) + more)
            <==> AllStorable(c, rs) && AllStorable(c, more)
  {
    FramesAreClean(c, rs);
    ReadFrames(c, rs);
    ReadFrames(c, more);
    ReadAfterFrames(c, rs, FrameAll(c, more));
    ReadableIsAll(c, rs);
    ReadableIsAll(c, more);
  }

  lemma ReadFrames<R(!new)>(c: Codec<R>, rs: seq<R>)
    requires Sound(c)
    ensures Read(c, FrameAll(c, rs)) == Records(Readable(c, rs))
  {
    ReadAfterFrames(c, rs, []);
    ReadableIsAll(c, rs);
    PrependEmpty(rs);
    assert FrameAll(c, rs) + [] == FrameAll(c, rs);
  }
}
