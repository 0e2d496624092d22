/** The assumptions about the log's encoder can all be met at once: a codec for mutations that
    parses back exactly what is encodable, and whose records can be cut inside a character. */
module CodecModel {
  import opened Text
  import opened GraphModel
  import opened WalLog
  import opened Durability

  // ---- mutations as numbers ----

  type Tokens = seq<nat>

  function StringTokens(s: string): Tokens {
    [|s|] + seq(|s|, i requires 0 <= i < |s| => s[i] as int)
  }

  lemma StringInjective(s: string, t: string, x: Tokens, y: Tokens)
    requires StringTokens(s) + x == StringTokens(t) + y
    ensures s == t && x == y
  {
    var a, b := StringTokens(s) + x, StringTokens(t) + y;
    assert a[0] == |s| && b[0] == |t|;
    forall i | 0 <= i < |s| ensures s[i] == t[i] {
      assert a[i + 1] == s[i] as int && b[i + 1] == t[i] as int;
    }
    assert a[1 + |s|..] == x && b[1 + |t|..] == y;
  }

  function ListTokens(ss: seq<string>): Tokens {
    if ss == [] then [0] else [1] + (StringTokens(ss[0]) + ListTokens(ss[1..]))
  }

  lemma ListHead(ss: seq<string>, x: Tokens)
    ensures var a := ListTokens(ss) + x;
            && a[0] == (if ss == [] then 0 else 1)
            && a[1..] == if ss == [] then x else StringTokens(ss[0]) + (ListTokens(ss[1..]) + x)
  {
  }

  lemma {:induction false} ListInjective(ss: seq<string>, ts: seq<string>, x: Tokens, y: Tokens)
    requires ListTokens(ss) + x == ListTokens(ts) + y
    ensures ss == ts && x == y
  {
    ListHead(ss, x);
    ListHead(ts, y);
    if ss != [] {
      StringInjective(ss[0], ts[0], ListTokens(ss[1..]) + x, ListTokens(ts[1..]) + y);
      ListInjective(ss[1..], ts[1..], x, y);
      assert ss == [ss[0]] + ss[1..] && ts == [ts[0]] + ts[1..];
    }
  }

  /** Keys and values in turn, in some order. */
  ghost function Pairs(m: map<string, string>): seq<string>
    decreases |m|
  {
    if m == map[] then []
    else
      var k :| k in m;
      [k, m[k]] + Pairs(m - {k})
  }

  function MapOf(pairs: seq<string>): map<string, string> {
    if |pairs| < 2 then map[] else MapOf(pairs[2..])[pairs[0] := pairs[1]]
  }

  lemma {:induction false} MapOfPairs(m: map<string, string>)
    ensures MapOf(Pairs(m)) == m
    decreases |m|
  {
    if m != map[] {
      var k := Pairs(m)[0];
      assert k in m && Pairs(m)[1] == m[k] && Pairs(m)[2..] == Pairs(m - {k});
      MapOfPairs(m - {k});
    }
  }

  ghost function PropTokens(m: map<string, string>): Tokens {
    ListTokens(Pairs(m))
  }

  lemma PropInjective(m: map<string, string>, n: map<string, string>, x: Tokens, y: Tokens)
    requires PropTokens(m) + x == PropTokens(n) + y
    ensures m == n && x == y
  {
    ListInjective(Pairs(m), Pairs(n), x, y);
    MapOfPairs(m);
    MapOfPairs(n);
  }

  function FloatTokens(o: Option<seq<Float32>>): Tokens {
    match o
    case None => [0]
    case Some(fs) => [1] + seq(|fs|, i requires 0 <= i < |fs| => fs[i])
  }

  lemma FloatInjective(o: Option<seq<Float32>>, p: Option<seq<Float32>>)
    requires FloatTokens(o) == FloatTokens(p)
    ensures o == p
  {
    var a, b := FloatTokens(o), FloatTokens(p);
    assert a[0] == b[0];
    if o.Some? {
      assert |o.value| == |p.value|;
      forall i | 0 <= i < |o.value| ensures o.value[i] == p.value[i] {
        assert a[i + 1] == o.value[i] && b[i + 1] == p.value[i];
      }
      assert o.value == p.value;
    }
  }

  ghost function NodeTokens(n: Node): Tokens {
    StringTokens(n.id) + (ListTokens(n.labels) + (PropTokens(n.props) + FloatTokens(n.embedding)))
  }

  lemma NodeInjective(n: Node, o: Node)
    requires NodeTokens(n) == NodeTokens(o)
    ensures n == o
  {
    StringInjective(n.id, o.id, ListTokens(n.labels) + (PropTokens(n.props) + FloatTokens(n.embedding)),
                    ListTokens(o.labels) + (PropTokens(o.props) + FloatTokens(o.embedding)));
    ListInjective(n.labels, o.labels, PropTokens(n.props) + FloatTokens(n.embedding),
                  PropTokens(o.props) + FloatTokens(o.embedding));
    PropInjective(n.props, o.props, FloatTokens(n.embedding), FloatTokens(o.embedding));
    FloatInjective(n.embedding, o.embedding);
  }

  ghost function EdgeTokens(e: Edge): Tokens {
    StringTokens(e.id) +
    (StringTokens(e.from) + (StringTokens(e.to) + (StringTokens(e.etype) + (PropTokens(e.props) + [e.weight]))))
  }

  lemma EdgeInjective(e: Edge, f: Edge)
    requires EdgeTokens(e) == EdgeTokens(f)
    ensures e == f
  {
    var e4, f4 := PropTokens(e.props) + [e.weight], PropTokens(f.props) + [f.weight];
    var e3, f3 := StringTokens(e.etype) + e4, StringTokens(f.etype) + f4;
    var e2, f2 := StringTokens(e.to) + e3, StringTokens(f.to) + f3;
    StringInjective(e.id, f.id, StringTokens(e.from) + e2, StringTokens(f.from) + f2);
    StringInjective(e.from, f.from, e2, f2);
    StringInjective(e.to, f.to, e3, f3);
    StringInjective(e.etype, f.etype, e4, f4);
    PropInjective(e.props, f.props, [e.weight], [f.weight]);
    assert [e.weight][0] == [f.weight][0];
  }

  ghost function MutationTokens(m: Mutation): Tokens {
    match m
    case UpsertNode(n) => [0] + NodeTokens(n)
    case UpsertEdge(e) => [1] + EdgeTokens(e)
    case DeleteNode(id) => [2] + StringTokens(id)
    case DeleteEdge(id) => [3] + StringTokens(id)
  }

  lemma MutationInjective(m: Mutation, n: Mutation)
    requires MutationTokens(m) == MutationTokens(n)
    ensures m == n
  {
    var a, b := MutationTokens(m), MutationTokens(n);
    assert a[0] == b[0];
    assert a[1..] == b[1..];
    match m
    case UpsertNode(x) => NodeInjective(x, n.node);
    case UpsertEdge(x) => EdgeInjective(x, n.edge);
    case DeleteNode(x) => SameString(x, n.nodeId);
    case DeleteEdge(x) => SameString(x, n.edgeId);
  }

  lemma SameString(s: string, t: string)
    requires StringTokens(s) == StringTokens(t)
    ensures s == t
  {
    assert StringTokens(s) + [] == StringTokens(s) && StringTokens(t) + [] == StringTokens(t);
    StringInjective(s, t, [], []);
  }

  // ---- numbers as bytes ----

  function Ones(n: nat): Bytes {
    if n == 0 then [] else [49] + Ones(n - 1)
  }

  function TokenBytes(ts: Tokens): Bytes {
    if ts == [] then [] else Ones(ts[0]) + [44] + TokenBytes(ts[1..])
  }

  lemma OnesHead(n: nat, x: Bytes)
    ensures var a := Ones(n) + [44] + x;
            a[0] == (if n == 0 then 44 else 49) && a[1..] == if n == 0 then x else Ones(n - 1) + [44] + x
  {
  }

  lemma {:induction false} OnesInjective(m: nat, n: nat, x: Bytes, y: Bytes)
    requires Ones(m) + [44] + x == Ones(n) + [44] + y
    ensures m == n && x == y
  {
    OnesHead(m, x);
    OnesHead(n, y);
    if m > 0 {
      OnesInjective(m - 1, n - 1, x, y);
    }
  }

  lemma {:induction false} TokenBytesInjective(s: Tokens, t: Tokens)
    requires TokenBytes(s) == TokenBytes(t)
    ensures s == t
  {
    if s != [] && t != [] {
      OnesInjective(s[0], t[0], TokenBytes(s[1..]), TokenBytes(t[1..]));
      TokenBytesInjective(s[1..], t[1..]);
      assert s == [s[0]] + s[1..] && t == [t[0]] + t[1..];
    }
  }

  /** Digits, commas and the `n` of a null: nothing that could open, close or break a line. */
  predicate Plain(b: Bytes) {
    forall i :: 0 <= i < |b| ==> b[i] == 49 || b[i] == 44 || b[i] == 110
  }

  lemma {:induction false} OnesArePlain(n: nat)
    ensures forall i :: 0 <= i < |Ones(n)| ==> Ones(n)[i] == 49
  {
    if n > 0 {
      OnesArePlain(n - 1);
    }
  }

  lemma {:induction false} TokenBytesArePlain(ts: Tokens)
    ensures Plain(TokenBytes(ts)) && 110 !in TokenBytes(ts)
  {
    if ts != [] {
      OnesArePlain(ts[0]);
      TokenBytesArePlain(ts[1..]);
    }
  }

  // ---- the codec ----

  ghost function Payload(m: Mutation): Bytes {
    if Encodable(m) then TokenBytes(MutationTokens(m)) else [110]
  }

  /** An opening brace, a two-byte character, the payload, and the closing brace. */
  function Wrap(payload: Bytes): Bytes {
    [123, 195, 169] + payload + [125]
  }

  ghost function Encode(m: Mutation): Bytes {
    Wrap(Payload(m))
  }

  /** A first byte of the two-byte character without its second. */
  predicate BrokenAt(b: Bytes, i: nat) {
    i < |b| && b[i] == 195 && (i + 1 == |b| || b[i + 1] != 169)
  }

  ghost predicate Broken(b: Bytes) {
    exists i: nat :: BrokenAt(b, i)
  }

  ghost predicate Encodes(b: Bytes, m: Mutation) {
    Encodable(m) && Encode(m) == b
  }

  ghost function Classify(b: Bytes): Line<Mutation> {
    if b == [] then Blank
    else if Broken(b) then NotText
    else if exists m :: Encodes(b, m) then
      var m :| Encodes(b, m);
      Record(m)
    else Garbage
  }

  lemma PayloadIsPlain(m: Mutation)
    ensures Plain(Payload(m))
  {
    if Encodable(m) {
      TokenBytesArePlain(MutationTokens(m));
    }
  }

  /** Where the special bytes of a record are. */
  predicate Shaped(b: Bytes) {
    && |b| >= 4 && b[0] == 123 && b[1] == 195 && b[2] == 169 && b[|b| - 1] == 125
    && forall i :: 3 <= i < |b| - 1 ==> b[i] == 49 || b[i] == 44 || b[i] == 110
  }

  lemma PlainIsShaped(payload: Bytes)
    requires Plain(payload)
    ensures Shaped(Wrap(payload))
  {
    var b := Wrap(payload);
    forall i | 3 <= i < |b| - 1 ensures b[i] == 49 || b[i] == 44 || b[i] == 110 {
      assert b[i] == payload[i - 3];
    }
  }

  lemma ShapedIsOneLine(b: Bytes)
    requires Shaped(b)
    ensures NEWLINE !in b && b != [] && !Broken(b)
  {
    forall i | 0 <= i < |b| ensures b[i] != NEWLINE {
    }
    forall i: nat ensures !BrokenAt(b, i) {
    }
  }

  /** Only a cut behind the first byte of the two-byte character breaks it. */
  lemma CutBreaks(a: Bytes, k: nat)
    requires Shaped(a) && 0 < k <= |a|
    ensures Broken(a[..k]) <==> k == 2
  {
    var cut := a[..k];
    if k == 2 {
      assert BrokenAt(cut, 1);
    } else {
      forall i: nat ensures !BrokenAt(cut, i) {
        assert i < k ==> cut[i] == a[i];
        assert i + 1 < k ==> cut[i + 1] == a[i + 1];
      }
    }
  }

  lemma CutIsNotShaped(a: Bytes, k: nat)
    requires Shaped(a) && 0 < k < |a|
    ensures !Shaped(a[..k])
  {
    assert a[..k][k - 1] == a[k - 1] != 125;
  }

  lemma GlueBreaks(a: Bytes, k: nat, b: Bytes)
    requires Shaped(a) && Shaped(b) && 0 < k <= |a|
    ensures Broken(a[..k] + b) <==> k == 2
  {
    var glued := a[..k] + b;
    if k == 2 {
      assert BrokenAt(glued, 1);
    } else {
      forall i: nat ensures !BrokenAt(glued, i) {
        GlueIsWholeAt(a, k, b, i);
      }
    }
  }

  lemma GlueIsWholeAt(a: Bytes, k: nat, b: Bytes, i: nat)
    requires Shaped(a) && Shaped(b) && 0 < k <= |a| && k != 2
    ensures !BrokenAt(a[..k] + b, i)
  {
    var glued := a[..k] + b;
    if i < k {
      assert glued[i] == a[i];
      assert i + 1 < k ==> glued[i + 1] == a[i + 1];
    } else if i < |glued| {
      assert glued[i] == b[i - k];
      assert i + 1 < |glued| ==> glued[i + 1] == b[i + 1 - k];
    }
  }

  lemma GlueIsNotShaped(a: Bytes, k: nat, b: Bytes)
    requires Shaped(b) && 0 < k <= |a|
    ensures !Shaped(a[..k] + b)
  {
    assert (a[..k] + b)[k] == 123;
  }

  lemma EncodeShape(m: Mutation)
    ensures Shaped(Encode(m))
  {
    PayloadIsPlain(m);
    PlainIsShaped(Payload(m));
  }

  /** What is not shaped like a record is not one. */
  lemma OnlyShapedEncodes(b: Bytes)
    requires !Shaped(b)
    ensures forall m :: !Encodes(b, m)
  {
    forall m ensures !Encodes(b, m) {
      EncodeShape(m);
    }
  }

  lemma WrapInjective(a: Bytes, b: Bytes)
    requires Wrap(a) == Wrap(b)
    ensures a == b
  {
    assert Wrap(a)[3..|Wrap(a)| - 1] == a && Wrap(b)[3..|Wrap(b)| - 1] == b;
  }

  lemma EncodeInjective(m: Mutation, n: Mutation)
    requires Encode(m) == Encode(n)
    ensures Payload(m) == Payload(n)
    ensures Encodable(m) && Encodable(n) ==> m == n
    ensures Encodable(m) <==> Encodable(n)
  {
    WrapInjective(Payload(m), Payload(n));
    if Encodable(m) && Encodable(n) {
      TokenBytesInjective(MutationTokens(m), MutationTokens(n));
      MutationInjective(m, n);
    }
    TokenBytesArePlain(MutationTokens(m));
    TokenBytesArePlain(MutationTokens(n));
    assert Encodable(m) <==> 110 !in Payload(m);
    assert Encodable(n) <==> 110 !in Payload(n);
  }

  ghost function Model(): MutationCodec {
    Codec(Encode, Classify, Encodable)
  }

  lemma ModelParsesBack(m: Mutation)
    ensures ParsesBack(Model(), m)
  {
    var b := Encode(m);
    EncodeShape(m);
    ShapedIsOneLine(b);
    forall n | Encodes(b, n) ensures Encodable(m) && n == m {
      EncodeInjective(m, n);
    }
    if Encodable(m) {
      assert Encodes(b, m);
    }
  }

  lemma ModelCuts(m: Mutation, k: nat)
    ensures CutIsUnparsed(Model(), m, k)
    ensures 0 < k < |Encode(m)| ==> (Classify(Encode(m)[..k]).NotText? <==> k == 2)
  {
    var a := Encode(m);
    if 0 < k < |a| {
      EncodeShape(m);
      CutBreaks(a, k);
      CutIsNotShaped(a, k);
      OnlyShapedEncodes(a[..k]);
    }
  }

  lemma ModelGlues(m: Mutation, k: nat, n: Mutation)
    ensures GlueIsUnparsed(Model(), m, k, n)
  {
    var a, b := Encode(m), Encode(n);
    if 0 < k <= |a| {
      EncodeShape(m);
      EncodeShape(n);
      CutBreaks(a, k);
      GlueBreaks(a, k, b);
      GlueIsNotShaped(a, k, b);
      OnlyShapedEncodes(a[..k] + b);
    }
  }

  /** The assumptions hold together, of a codec whose every record can be cut inside a character. */
  lemma JsonCodecExists() returns (c: MutationCodec)
    ensures JsonCodec(c) && forall m :: CutInsideCharacter(c, m, 2)
  {
    c := Model();
    forall m ensures ParsesBack(c, m) {
      ModelParsesBack(m);
    }
    forall m, k: nat ensures CutIsUnparsed(c, m, k) {
      ModelCuts(m, k);
    }
    forall m, k: nat, n ensures GlueIsUnparsed(c, m, k, n) {
      ModelGlues(m, k, n);
    }
    forall m ensures CutInsideCharacter(c, m, 2) {
      EncodeShape(m);
      ModelCuts(m, 2);
    }
  }

  /** So a power loss can leave a store that never opens again: two bytes of one record are enough. */
  lemma StoreCanBecomeUnopenable(every: nat, m: Mutation) returns (c: MutationCodec)
    ensures JsonCodec(c)
    ensures var run := [Reopen, TearRecord(m, 2)];
            && Possible(c, every, INITIAL, run) && CleanAppends(c, every, INITIAL, run)
            && forall later :: Possible(c, every, After(c, every, INITIAL, run), later) ==> later == []
  {
    c := JsonCodecExists();
    assert CutInsideCharacter(c, m, 2);
    CutCharacterIsFatal(c, every, m, 2);
  }
}
