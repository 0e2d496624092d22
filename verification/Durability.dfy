/** Crash safety of the graph store as a state machine: every disk action is a step,
    the machine may die between any two of them or in the middle of an append, and
    reopening loads the snapshot and replays the log. */
module Durability {
  import opened Text
  import opened GraphModel
  import opened WalLog

  type MutationCodec = Codec<Mutation>

  /** What the encoder of the log gives: everything parses back but infinite and NaN floats. */
  ghost predicate JsonCodec(c: MutationCodec) {
    Sound(c) && forall m :: c.storable(m) == Encodable(m)
  }

  datatype Disk = Disk(snapshot: Graph, wal: Bytes)

  /** Where the process is inside a call: between calls, after the log write, with a
      snapshot owed, or with the new snapshot renamed into place. */
  datatype Phase = Ready | Logged(m: Mutation) | Due | Renamed

  datatype Process = Down | Up(memory: Graph, since: nat, phase: Phase)

  datatype World = World(disk: Disk, process: Process)

  const INITIAL: World := World(Disk(EMPTY, []), Down)

  datatype Event =
    | LogRecord(m: Mutation)
    | TearRecord(m: Mutation, bytes: nat)
    | FailAppend(m: Mutation, bytes: nat)
    | ApplyToMemory
    | RenameSnapshot
    | TruncateLog
    | Crash
    | Reopen

  /** What opening this disk yields; `None` when the snapshot does not parse or the log is not
      UTF-8. */
  function Recover(c: MutationCodec, d: Disk): Option<Graph> {
    if !GraphEncodable(d.snapshot) then None
    else
      match Read(c, d.wal)
      case Unreadable => None
      case Records(rs) => Some(Replay(d.snapshot, rs))
  }

  predicate Enabled(c: MutationCodec, w: World, e: Event) {
    match e
    case LogRecord(_) => w.process.Up? && w.process.phase.Ready?
    case TearRecord(m, k) => w.process.Up? && w.process.phase.Ready? && k < |Framed(c, m)|
    case FailAppend(m, k) => w.process.Up? && w.process.phase.Ready? && k < |c.encode(m)|
    case ApplyToMemory => w.process.Up? && w.process.phase.Logged?
    case RenameSnapshot => w.process.Up? && (w.process.phase.Ready? || w.process.phase.Due?)
    case TruncateLog => w.process.Up? && w.process.phase.Renamed?
    case Crash => w.process.Up?
    case Reopen => w.process.Down? && Recover(c, w.disk).Some?
  }

  /** One step; `every` is the number of mutations after which a snapshot is owed. */
  function Next(c: MutationCodec, every: nat, w: World, e: Event): World
    requires Enabled(c, w, e)
  {
    match e
    case LogRecord(m) =>
      World(w.disk.(wal := w.disk.wal + Framed(c, m)), w.process.(phase := Logged(m)))
    case TearRecord(m, k) =>
      World(w.disk.(wal := w.disk.wal + Framed(c, m)[..k]), Down)
    case FailAppend(m, k) =>
      w.(disk := w.disk.(wal := w.disk.wal + Framed(c, m)[..k]))
    case ApplyToMemory =>
      var since := w.process.since + 1;
      w.(process := Up(Apply(w.process.memory, w.process.phase.m), since, if since >= every then Due else Ready))
    case RenameSnapshot =>
      World(w.disk.(snapshot := w.process.memory), w.process.(phase := Renamed))
    case TruncateLog =>
      World(w.disk.(wal := []), w.process.(since := 0, phase := Ready))
    case Crash =>
      w.(process := Down)
    case Reopen =>
      w.(process := Up(Recover(c, w.disk).value, 0, Ready))
  }

  predicate Possible(c: MutationCodec, every: nat, w: World, run: seq<Event>)
    decreases |run|
  {
    run == [] || (Enabled(c, w, run[0]) && Possible(c, every, Next(c, every, w, run[0]), run[1..]))
  }

  function After(c: MutationCodec, every: nat, w: World, run: seq<Event>): World
    requires Possible(c, every, w, run)
    decreases |run|
  {
    if run == [] then w else After(c, every, Next(c, every, w, run[0]), run[1..])
  }

  /** A record is being written, whether or not it gets there. */
  predicate Writes(e: Event) {
    e.LogRecord? || e.TearRecord? || e.FailAppend?
  }

  /** No record is appended behind an unterminated one, and what is acknowledged can be encoded. */
  predicate CleanAppends(c: MutationCodec, every: nat, w: World, run: seq<Event>)
    requires Possible(c, every, w, run)
    decreases |run|
  {
    run == [] ||
    ((Writes(run[0]) ==> CleanTail(w.disk.wal)) && (run[0].LogRecord? ==> Encodable(run[0].m)) &&
     CleanAppends(c, every, Next(c, every, w, run[0]), run[1..]))
  }

  predicate CutInsideCharacter(c: MutationCodec, m: Mutation, k: nat) {
    0 < k < |c.encode(m)| && c.classify(c.encode(m)[..k]).NotText?
  }

  /** This step leaves the beginning of a record that ends inside a character. */
  predicate TearsOne(c: MutationCodec, e: Event) {
    (e.TearRecord? || e.FailAppend?) && CutInsideCharacter(c, e.m, e.bytes)
  }

  predicate TearsCharacter(c: MutationCodec, run: seq<Event>) {
    exists i :: 0 <= i < |run| && TearsOne(c, run[i])
  }

  /** The mutation whose record this step puts completely and readably on disk, if any. */
  function WrittenBy(c: MutationCodec, e: Event): seq<Mutation> {
    match e
    case LogRecord(m) => [m]
    case TearRecord(m, k) => if k >= |c.encode(m)| && Encodable(m) then [m] else []
    case _ => []
  }

  /** All mutations of a run whose records were completely written, in order. */
  function Written(c: MutationCodec, run: seq<Event>): seq<Mutation> {
    if run == [] then [] else WrittenBy(c, run[0]) + Written(c, run[1..])
  }

  // ---- the invariant ----

  /** The log file is whole records followed by a cut of one more. */
  predicate LogShape(c: MutationCodec, wal: Bytes, rs: seq<Mutation>, r: Mutation, k: nat) {
    k < |Framed(c, r)| && wal == FrameAll(c, rs) + Framed(c, r)[..k]
  }

  function Complete(c: MutationCodec, rs: seq<Mutation>, r: Mutation, k: nat): seq<Mutation> {
    if k >= |c.encode(r)| && Encodable(r) then rs + [r] else rs
  }

  predicate MemoryMatches(w: World, base: Graph, log: seq<Mutation>) {
    w.process.Up? ==>
      match w.process.phase
      case Logged(m) =>
        log != [] && log[|log| - 1] == m && w.process.memory == Replay(base, log[..|log| - 1])
      case Renamed => w.process.memory == Replay(base, log) && w.disk.snapshot == w.process.memory
      case _ => w.process.memory == Replay(base, log)
  }

  ghost predicate Inv(c: MutationCodec, base: Graph, w: World, log: seq<Mutation>, torn: bool,
                      rs: seq<Mutation>, r: Mutation, k: nat)
  {
    && LogShape(c, w.disk.wal, rs, r, k)
    && AllEncodable(rs) && AllEncodable(log) && GraphEncodable(w.disk.snapshot) && GraphEncodable(base)
    && (CutInsideCharacter(c, r, k) ==> torn)
    && Replay(w.disk.snapshot, Complete(c, rs, r, k)) == Replay(base, log)
    && MemoryMatches(w, base, log)
  }

  lemma EncodableIsStorable(c: MutationCodec, rs: seq<Mutation>)
    requires JsonCodec(c)
    ensures AllEncodable(rs) <==> AllStorable(c, rs)
  {
    forall i | 0 <= i < |rs| ensures c.storable(rs[i]) == Encodable(rs[i]) {
    }
  }

  lemma ShapeReads(c: MutationCodec, wal: Bytes, rs: seq<Mutation>, r: Mutation, k: nat)
    requires JsonCodec(c) && LogShape(c, wal, rs, r, k) && AllEncodable(rs)
    ensures Read(c, wal) == if CutInsideCharacter(c, r, k) then Unreadable else Records(Complete(c, rs, r, k))
    ensures CleanTail(wal) <==> k == 0
  {
    EncodableIsStorable(c, rs);
    TornRead(c, rs, r, k);
    assert ParsesBack(c, r) && c.storable(r) == Encodable(r);
    FramesAreClean(c, rs);
    if k > 0 {
      CutIsDirty(c, rs, r, k);
    } else {
      assert wal == FrameAll(c, rs);
    }
  }

  lemma LogRecordKeepsInv(c: MutationCodec, every: nat, base: Graph, w: World, m: Mutation, log: seq<Mutation>,
                          torn: bool,
                          rs: seq<Mutation>, r: Mutation)
    requires JsonCodec(c) && Inv(c, base, w, log, torn, rs, r, 0) && Enabled(c, w, LogRecord(m)) && Encodable(m)
    ensures Inv(c, base, Next(c, every, w, LogRecord(m)), log + [m], torn, rs + [m], m, 0)
  {
    assert ParsesBack(c, r);
    FrameAllSnoc(c, rs, m);
    ReplaySnoc(w.disk.snapshot, rs, m);
    ReplaySnoc(base, log, m);
    assert (log + [m])[..|log|] == log;
    assert FrameAll(c, rs) + Framed(c, r)[..0] == FrameAll(c, rs);
    assert FrameAll(c, rs + [m]) + Framed(c, m)[..0] == FrameAll(c, rs + [m]);
    assert ParsesBack(c, m);
  }

  lemma TearRecordKeepsInv(c: MutationCodec, every: nat, base: Graph, w: World, m: Mutation, k: nat, log: seq<Mutation>,
                           torn: bool, rs: seq<Mutation>, r: Mutation)
    requires JsonCodec(c) && Inv(c, base, w, log, torn, rs, r, 0) && Enabled(c, w, TearRecord(m, k))
    ensures Inv(c, base, Next(c, every, w, TearRecord(m, k)), log + WrittenBy(c, TearRecord(m, k)),
                torn || CutInsideCharacter(c, m, k), rs, m, k)
  {
    assert ParsesBack(c, r);
    ReplaySnoc(w.disk.snapshot, rs, m);
    ReplaySnoc(base, log, m);
    assert log + [] == log;
    assert FrameAll(c, rs) + Framed(c, r)[..0] == FrameAll(c, rs);
  }

  lemma FailAppendKeepsInv(c: MutationCodec, every: nat, base: Graph, w: World, m: Mutation, k: nat, log: seq<Mutation>,
                           torn: bool, rs: seq<Mutation>, r: Mutation)
    requires JsonCodec(c) && Inv(c, base, w, log, torn, rs, r, 0) && Enabled(c, w, FailAppend(m, k))
    ensures Inv(c, base, Next(c, every, w, FailAppend(m, k)), log, torn || CutInsideCharacter(c, m, k), rs, m, k)
  {
    assert ParsesBack(c, r);
    assert FrameAll(c, rs) + Framed(c, r)[..0] == FrameAll(c, rs);
  }

  /** Every step keeps the invariant. */
  lemma StepKeepsInv(c: MutationCodec, every: nat, base: Graph, w: World, e: Event, log: seq<Mutation>, torn: bool,
                     rs: seq<Mutation>, r: Mutation, k: nat)
      returns (rs': seq<Mutation>, r': Mutation, k': nat)
    requires JsonCodec(c) && Inv(c, base, w, log, torn, rs, r, k) && Enabled(c, w, e)
    requires (Writes(e) ==> CleanTail(w.disk.wal)) && (e.LogRecord? ==> Encodable(e.m))
    ensures Inv(c, base, Next(c, every, w, e), log + WrittenBy(c, e), torn || TearsOne(c, e), rs', r', k')
  {
    rs', r', k' := rs, r, k;
    ShapeReads(c, w.disk.wal, rs, r, k);
    assert log + [] == log;
    match e
    case LogRecord(m) =>
      LogRecordKeepsInv(c, every, base, w, m, log, torn, rs, r);
      rs', r', k' := rs + [m], m, 0;
    case TearRecord(m, j) =>
      TearRecordKeepsInv(c, every, base, w, m, j, log, torn, rs, r);
      r', k' := m, j;
    case FailAppend(m, j) =>
      FailAppendKeepsInv(c, every, base, w, m, j, log, torn, rs, r);
      r', k' := m, j;
    case ApplyToMemory =>
      ReplaySnoc(base, log[..|log| - 1], w.process.phase.m);
      assert log[..|log| - 1] + [w.process.phase.m] == log;
    case RenameSnapshot =>
      LogIdempotent(w.disk.snapshot, Complete(c, rs, r, k));
      ReplayEncodable(base, log);
    case TruncateLog =>
      rs', k' := [], 0;
      assert ParsesBack(c, r);
      assert FrameAll(c, []) + Framed(c, r)[..0] == [];
    case Crash =>
    case Reopen =>
  }

  lemma {:induction false} RunKeepsInv(c: MutationCodec, every: nat, base: Graph, w: World, run: seq<Event>,
                                       log: seq<Mutation>,
                                       torn: bool, rs: seq<Mutation>, r: Mutation, k: nat)
      returns (rs': seq<Mutation>, r': Mutation, k': nat)
    requires JsonCodec(c) && Inv(c, base, w, log, torn, rs, r, k)
    requires Possible(c, every, w, run) && CleanAppends(c, every, w, run)
    ensures Inv(c, base, After(c, every, w, run), log + Written(c, run), torn || TearsCharacter(c, run), rs', r', k')
    decreases |run|
  {
    if run == [] {
      assert log + Written(c, run) == log;
      rs', r', k' := rs, r, k;
    } else {
      var e := run[0];
      rs', r', k' := StepKeepsInv(c, every, base, w, e, log, torn, rs, r, k);
      rs', r', k' := RunKeepsInv(c, every, base, Next(c, every, w, e), run[1..], log + WrittenBy(c, e),
                                 torn || TearsOne(c, e), rs', r', k');
      TearsSplit(c, run);
      WrittenSplit(c, run, log);
    }
  }

  lemma WrittenSplit(c: MutationCodec, run: seq<Event>, log: seq<Mutation>)
    requires run != []
    ensures log + WrittenBy(c, run[0]) + Written(c, run[1..]) == log + Written(c, run)
  {
    Associative(log, WrittenBy(c, run[0]), Written(c, run[1..]));
  }

  lemma TearsSplit(c: MutationCodec, run: seq<Event>)
    requires run != []
    ensures TearsCharacter(c, run) <==> TearsOne(c, run[0]) || TearsCharacter(c, run[1..])
  {
    if i :| 0 <= i < |run| && TearsOne(c, run[i]) {
      if i > 0 {
        assert run[1..][i - 1] == run[i];
      }
    }
    if i :| 0 <= i < |run[1..]| && TearsOne(c, run[1..][i]) {
      assert run[i + 1] == run[1..][i];
    }
  }

  /** Crash recovery.  At every moment of every run that acknowledges only what can be encoded
      and never appends behind an unterminated record, with any crashes and failed writes, the
      disk reopens to exactly the completely written mutations applied in order; between calls
      the memory is that same graph, and during a call it lacks at most the one mutation being
      written.  Opening can fail only if some cut fell inside a character. */
  lemma CrashRecovery(c: MutationCodec, every: nat, run: seq<Event>)
    requires JsonCodec(c) && Possible(c, every, INITIAL, run) && CleanAppends(c, every, INITIAL, run)
    ensures var w := After(c, every, INITIAL, run);
            && (Recover(c, w.disk) == Some(Replay(EMPTY, Written(c, run)))
                || (Recover(c, w.disk) == None && TearsCharacter(c, run)))
            && MemoryMatches(w, EMPTY, Written(c, run))
  {
    var rs, r, k := ReachedShape(c, every, run);
    ShapeReads(c, After(c, every, INITIAL, run).disk.wal, rs, r, k);
  }

  lemma ReachedShape(c: MutationCodec, every: nat, run: seq<Event>) returns (rs: seq<Mutation>, r: Mutation, k: nat)
    requires JsonCodec(c) && Possible(c, every, INITIAL, run) && CleanAppends(c, every, INITIAL, run)
    ensures Inv(c, EMPTY, After(c, every, INITIAL, run), Written(c, run), TearsCharacter(c, run), rs, r, k)
  {
    var m := DeleteNode("");
    assert ParsesBack(c, m);
    assert Inv(c, EMPTY, INITIAL, [], false, [], m, 0) by {
      assert FrameAll(c, []) + Framed(c, m)[..0] == [];
    }
    rs, r, k := RunKeepsInv(c, every, EMPTY, INITIAL, run, [], false, [], m, 0);
    assert [] + Written(c, run) == Written(c, run);
  }

  /** Reopening puts the recovered graph in memory and leaves the disk as it is. */
  lemma ReopenIs(c: MutationCodec, every: nat, d: Disk, g: Graph)
    requires Recover(c, d) == Some(g)
    ensures Enabled(c, World(d, Down), Reopen)
    ensures Next(c, every, World(d, Down), Reopen) == World(d, Up(g, 0, Ready))
  {
  }

  // ---- a whole call ----

  /** The steps of one mutation call that is not interrupted. */
  function CallEvents(w: World, every: nat, m: Mutation): seq<Event>
    requires w.process.Up?
  {
    [LogRecord(m), ApplyToMemory] + if w.process.since + 1 >= every then [RenameSnapshot, TruncateLog] else []
  }

  /** What those steps amount to. */
  function CallOutcome(c: MutationCodec, every: nat, w: World, m: Mutation): World
    requires w.process.Up?
  {
    var memory := Apply(w.process.memory, m);
    if w.process.since + 1 >= every then World(Disk(memory, []), Up(memory, 0, Ready))
    else World(w.disk.(wal := w.disk.wal + Framed(c, m)), Up(memory, w.process.since + 1, Ready))
  }

  lemma CallRuns(c: MutationCodec, every: nat, w: World, m: Mutation)
    requires w.process.Up? && w.process.phase.Ready?
    ensures Possible(c, every, w, CallEvents(w, every, m))
    ensures After(c, every, w, CallEvents(w, every, m)) == CallOutcome(c, every, w, m)
  {
    var run := CallEvents(w, every, m);
    var w1 := Next(c, every, w, LogRecord(m));
    var w2 := Next(c, every, w1, ApplyToMemory);
    assert run[1..][0] == ApplyToMemory;
    if w.process.since + 1 >= every {
      var w3 := Next(c, every, w2, RenameSnapshot);
      var w4 := Next(c, every, w3, TruncateLog);
      assert run[1..][1..] == [RenameSnapshot, TruncateLog];
      assert [RenameSnapshot, TruncateLog][1..] == [TruncateLog];
      assert [TruncateLog][1..] == [];
      assert Possible(c, every, w4, []) && After(c, every, w4, []) == w4;
      assert Possible(c, every, w3, [TruncateLog]) && After(c, every, w3, [TruncateLog]) == w4;
      assert Possible(c, every, w2, [RenameSnapshot, TruncateLog])
          && After(c, every, w2, [RenameSnapshot, TruncateLog]) == w4;
      assert w4 == World(Disk(w2.process.memory, []), Up(w2.process.memory, 0, Ready));
    } else {
      assert run[1..][1..] == [];
      assert Possible(c, every, w2, []) && After(c, every, w2, []) == w2;
    }
    assert Possible(c, every, w1, run[1..]);
  }

  // ---- the next call after a crash ----

  /** Reopen, write one mutation, apply it, and lose power. */
  function OneMoreCall(m: Mutation): seq<Event> {
    [Reopen, LogRecord(m), ApplyToMemory, Crash]
  }

  /** A run can be followed step by step from its end. */
  lemma {:induction false} OneMoreStep(c: MutationCodec, every: nat, w: World, run: seq<Event>, e: Event)
    requires Possible(c, every, w, run) && Enabled(c, After(c, every, w, run), e)
    ensures Possible(c, every, w, run + [e])
    ensures After(c, every, w, run + [e]) == Next(c, every, After(c, every, w, run), e)
    decreases |run|
  {
    if run == [] {
      assert run + [e] == [e] && [e][1..] == [];
      assert Possible(c, every, Next(c, every, w, e), []);
    } else {
      assert (run + [e])[1..] == run[1..] + [e];
      OneMoreStep(c, every, Next(c, every, w, run[0]), run[1..], e);
    }
  }

  lemma OneMoreCallRuns(c: MutationCodec, every: nat, w: World, m: Mutation)
    requires w.process.Down? && Recover(c, w.disk).Some?
    ensures Possible(c, every, w, OneMoreCall(m))
    ensures After(c, every, w, OneMoreCall(m)) == World(w.disk.(wal := w.disk.wal + Framed(c, m)), Down)
  {
    OneMoreStep(c, every, w, [], Reopen);
    assert [] + [Reopen] == [Reopen];
    OneMoreStep(c, every, w, [Reopen], LogRecord(m));
    assert [Reopen] + [LogRecord(m)] == [Reopen, LogRecord(m)];
    OneMoreStep(c, every, w, [Reopen, LogRecord(m)], ApplyToMemory);
    assert [Reopen, LogRecord(m)] + [ApplyToMemory] == [Reopen, LogRecord(m), ApplyToMemory];
    OneMoreStep(c, every, w, [Reopen, LogRecord(m), ApplyToMemory], Crash);
    assert [Reopen, LogRecord(m), ApplyToMemory] + [Crash] == OneMoreCall(m);
  }

  lemma DistinctWrite(g: Graph) returns (m: Mutation)
    ensures Encodable(m) && forall h: Graph :: Apply(h, m) != g
  {
    var labels := if "x" in g.nodes then g.nodes["x"].labels + ["x"] else [];
    m := UpsertNode(Node("x", labels, map[], None));
    forall h: Graph ensures Apply(h, m) != g {
      assert Apply(h, m).nodes["x"].labels == labels;
    }
  }

  lemma AppendToClean(c: MutationCodec, d: Disk, rs: seq<Mutation>, m: Mutation)
    requires JsonCodec(c) && d.wal == FrameAll(c, rs) && AllEncodable(rs) && GraphEncodable(d.snapshot)
    ensures Recover(c, d) == Some(Replay(d.snapshot, rs))
    ensures Recover(c, d.(wal := d.wal + Framed(c, m))) ==
            Some(if Encodable(m) then Apply(Replay(d.snapshot, rs), m) else Replay(d.snapshot, rs))
  {
    EncodableIsStorable(c, rs);
    assert c.storable(m) == Encodable(m);
    assert Framed(c, m)[..|Framed(c, m)|] == Framed(c, m);
    TornRead(c, rs, m, |Framed(c, m)|);
    ReadFrames(c, rs);
    ReadableIsAll(c, rs);
    ReplaySnoc(d.snapshot, rs, m);
  }

  lemma AppendToCut(c: MutationCodec, d: Disk, rs: seq<Mutation>, r: Mutation, k: nat, m: Mutation)
    requires JsonCodec(c) && 0 < k <= |c.encode(r)| && !CutInsideCharacter(c, r, k)
    requires d.wal == FrameAll(c, rs) + Framed(c, r)[..k] && AllEncodable(rs) && GraphEncodable(d.snapshot)
    ensures Recover(c, d.(wal := d.wal + Framed(c, m))) == Some(Replay(d.snapshot, rs))
  {
    EncodableIsStorable(c, rs);
    FrameOne(c, m);
    assert ParsesBack(c, r);
    assert c.encode(r)[..|c.encode(r)|] == c.encode(r);
    GluedRead(c, rs, r, k, [m]);
  }

  /** The acknowledged mutation is there after the next restart, on top of what was there before. */
  predicate Survives(c: MutationCodec, every: nat, w: World, m: Mutation) {
    && Recover(c, w.disk).Some? && Possible(c, every, w, OneMoreCall(m))
    && Recover(c, After(c, every, w, OneMoreCall(m)).disk) == Some(Apply(Recover(c, w.disk).value, m))
  }

  lemma NextCallRecovers(c: MutationCodec, every: nat, w: World, rs: seq<Mutation>, r: Mutation, k: nat, m: Mutation)
    requires JsonCodec(c) && LogShape(c, w.disk.wal, rs, r, k) && AllEncodable(rs)
    requires w.process.Down? && Recover(c, w.disk).Some?
    ensures Possible(c, every, w, OneMoreCall(m))
    ensures Recover(c, After(c, every, w, OneMoreCall(m)).disk) ==
            Some(if k == 0 && Encodable(m) then Apply(Recover(c, w.disk).value, m) else Replay(w.disk.snapshot, rs))
    ensures k == 0 ==> Recover(c, w.disk).value == Replay(w.disk.snapshot, rs)
  {
    OneMoreCallRuns(c, every, w, m);
    if k == 0 {
      assert FrameAll(c, rs) + Framed(c, r)[..0] == FrameAll(c, rs);
      AppendToClean(c, w.disk, rs, m);
    } else {
      ShapeReads(c, w.disk.wal, rs, r, k);
      AppendToCut(c, w.disk, rs, r, k, m);
    }
  }

  /** The log's promise after a crash.  On a log that ends in a newline the next acknowledged
      mutation survives a restart exactly when it can be encoded; every encodable one survives
      exactly when the log ends in a newline; on any other log none is kept. */
  lemma NextCallSurvivesIff(c: MutationCodec, every: nat, w: World, rs: seq<Mutation>, r: Mutation, k: nat)
    requires JsonCodec(c) && LogShape(c, w.disk.wal, rs, r, k) && AllEncodable(rs)
    requires w.process.Down? && Recover(c, w.disk).Some?
    ensures CleanTail(w.disk.wal) ==> forall m :: Survives(c, every, w, m) <==> Encodable(m)
    ensures (forall m :: Encodable(m) ==> Survives(c, every, w, m)) <==> CleanTail(w.disk.wal)
    ensures !CleanTail(w.disk.wal) ==>
            forall m :: Possible(c, every, w, OneMoreCall(m)) &&
                        Recover(c, After(c, every, w, OneMoreCall(m)).disk) == Some(Replay(w.disk.snapshot, rs))
  {
    ShapeReads(c, w.disk.wal, rs, r, k);
    forall m
      ensures k == 0 ==> (Survives(c, every, w, m) <==> Encodable(m))
      ensures k > 0 ==> Possible(c, every, w, OneMoreCall(m)) &&
                        Recover(c, After(c, every, w, OneMoreCall(m)).disk) == Some(Replay(w.disk.snapshot, rs))
    {
      NextCallRecovers(c, every, w, rs, r, k, m);
      ReplayEncodable(w.disk.snapshot, rs);
      ApplyEncodable(Replay(w.disk.snapshot, rs), m);
    }
    if k > 0 {
      var m := DistinctWrite(Replay(w.disk.snapshot, rs));
      assert !Survives(c, every, w, m);
    }
  }

  /** Such a log is within one crash of the start: it is enough to lose a newline. */
  lemma UnterminatedLogIsReached(c: MutationCodec, every: nat, m: Mutation)
    requires JsonCodec(c)
    ensures var run := [Reopen, TearRecord(m, |c.encode(m)|)];
            && Possible(c, every, INITIAL, run) && CleanAppends(c, every, INITIAL, run)
            && var w := After(c, every, INITIAL, run);
               w.process.Down? && Recover(c, w.disk).Some? && !CleanTail(w.disk.wal)
  {
    var k := |c.encode(m)|;
    TearFromStart(c, every, m, k);
    assert ParsesBack(c, m);
    assert Framed(c, m)[..k] == FrameAll(c, []) + Framed(c, m)[..k];
    ShapeReads(c, Framed(c, m)[..k], [], m, k);
  }

  /** So is a write that fails while the process lives: it goes on with the start of a record in its log. */
  lemma FailedWriteLeavesItsStart(c: MutationCodec, every: nat, m: Mutation, k: nat)
    requires JsonCodec(c) && 0 < k < |c.encode(m)|
    ensures var run := [Reopen, FailAppend(m, k)];
            && Possible(c, every, INITIAL, run) && CleanAppends(c, every, INITIAL, run)
            && var w := After(c, every, INITIAL, run);
               w.process == Up(EMPTY, 0, Ready) && w.disk.wal == c.encode(m)[..k] && !CleanTail(w.disk.wal)
  {
    var w1 := Next(c, every, INITIAL, Reopen);
    var w2 := Next(c, every, w1, FailAppend(m, k));
    assert [Reopen, FailAppend(m, k)][1..] == [FailAppend(m, k)];
    assert [FailAppend(m, k)][1..] == [];
    assert Possible(c, every, w2, []) && After(c, every, w2, []) == w2 && CleanAppends(c, every, w2, []);
    assert After(c, every, w1, [FailAppend(m, k)]) == w2;
    assert Replay(EMPTY, []) == EMPTY;
    assert w2.disk.wal == Framed(c, m)[..k] == c.encode(m)[..k];
    assert FrameAll(c, []) + Framed(c, m)[..k] == w2.disk.wal;
    CutIsDirty(c, [], m, k);
  }

  /** A cut inside a character is worse: after it no run goes on from this disk. */
  lemma CutCharacterIsFatal(c: MutationCodec, every: nat, m: Mutation, k: nat)
    requires JsonCodec(c) && CutInsideCharacter(c, m, k)
    ensures var run := [Reopen, TearRecord(m, k)];
            && Possible(c, every, INITIAL, run) && CleanAppends(c, every, INITIAL, run)
            && Recover(c, After(c, every, INITIAL, run).disk).None?
            && forall later :: Possible(c, every, After(c, every, INITIAL, run), later) ==> later == []
  {
    TearFromStart(c, every, m, k);
    var wal := Framed(c, m)[..k];
    assert wal == FrameAll(c, []) + Framed(c, m)[..k];
    ShapeReads(c, wal, [], m, k);
  }

  lemma TearFromStart(c: MutationCodec, every: nat, m: Mutation, k: nat)
    requires JsonCodec(c) && k < |Framed(c, m)|
    ensures var run := [Reopen, TearRecord(m, k)];
            && Possible(c, every, INITIAL, run) && CleanAppends(c, every, INITIAL, run)
            && After(c, every, INITIAL, run) == World(Disk(EMPTY, Framed(c, m)[..k]), Down)
  {
    var w1 := Next(c, every, INITIAL, Reopen);
    var w2 := Next(c, every, w1, TearRecord(m, k));
    assert [Reopen, TearRecord(m, k)][1..] == [TearRecord(m, k)];
    assert [TearRecord(m, k)][1..] == [];
    assert Possible(c, every, w2, []) && After(c, every, w2, []) == w2 && CleanAppends(c, every, w2, []);
    assert After(c, every, w1, [TearRecord(m, k)]) == w2;
    assert [] + Framed(c, m)[..k] == Framed(c, m)[..k];
  }

  // ---- whole runs after a crash ----

  /** Crashes happen between steps, writes do not fail, and what is written can be encoded. */
  predicate Undisturbed(e: Event) {
    !e.TearRecord? && !e.FailAppend? && (e.LogRecord? ==> Encodable(e.m))
  }

  predicate AllUndisturbed(run: seq<Event>) {
    forall i :: 0 <= i < |run| ==> Undisturbed(run[i])
  }

  lemma StepStaysClean(c: MutationCodec, every: nat, w: World, e: Event)
    requires Enabled(c, w, e) && Undisturbed(e) && CleanTail(w.disk.wal)
    ensures CleanTail(Next(c, every, w, e).disk.wal)
  {
    if e.LogRecord? {
      var wal := w.disk.wal + Framed(c, e.m);
      assert wal[|wal| - 1] == NEWLINE;
    }
  }

  lemma {:induction false} UndisturbedAppendsAreClean(c: MutationCodec, every: nat, w: World, run: seq<Event>)
    requires Possible(c, every, w, run) && AllUndisturbed(run) && CleanTail(w.disk.wal)
    ensures CleanAppends(c, every, w, run) && !TearsCharacter(c, run)
    decreases |run|
  {
    if run != [] {
      assert Undisturbed(run[0]);
      StepStaysClean(c, every, w, run[0]);
      assert AllUndisturbed(run[1..]);
      UndisturbedAppendsAreClean(c, every, Next(c, every, w, run[0]), run[1..]);
    }
  }

  lemma CleanStartSurvives(c: MutationCodec, every: nat, base: Graph, w: World, run: seq<Event>, log: seq<Mutation>,
                           torn: bool,
                           rs: seq<Mutation>, r: Mutation)
    requires JsonCodec(c) && Inv(c, base, w, log, torn, rs, r, 0) && CleanTail(w.disk.wal)
    requires Possible(c, every, w, run) && AllUndisturbed(run)
    ensures Recover(c, After(c, every, w, run).disk) == Some(Replay(base, log + Written(c, run)))
  {
    UndisturbedAppendsAreClean(c, every, w, run);
    var rs', r', k' := RunKeepsInv(c, every, base, w, run, log, false, rs, r, 0);
    ShapeReads(c, After(c, every, w, run).disk.wal, rs', r', k');
  }

  /** Every undisturbed continuation recovers to everything written, before this moment and after it. */
  ghost predicate KeepsEverything(c: MutationCodec, every: nat, w: World, log: seq<Mutation>) {
    forall run :: Possible(c, every, w, run) && AllUndisturbed(run) ==>
      Recover(c, After(c, every, w, run).disk) == Some(Replay(EMPTY, log + Written(c, run)))
  }

  /** A crash, if the process is up, and one more call. */
  function RestartAndCall(w: World, m: Mutation): seq<Event> {
    if w.process.Up? then [Crash] + OneMoreCall(m) else OneMoreCall(m)
  }

  lemma RestartAndCallRuns(c: MutationCodec, every: nat, w: World, m: Mutation)
    requires Recover(c, w.disk).Some?
    ensures Possible(c, every, w, RestartAndCall(w, m))
    ensures After(c, every, w, RestartAndCall(w, m)) == After(c, every, w.(process := Down), OneMoreCall(m))
    ensures Possible(c, every, w.(process := Down), OneMoreCall(m))
  {
    OneMoreCallRuns(c, every, w.(process := Down), m);
    if w.process.Up? {
      assert RestartAndCall(w, m)[1..] == OneMoreCall(m);
    }
  }

  lemma RestartAndCallWrites(c: MutationCodec, w: World, m: Mutation)
    requires Encodable(m)
    ensures Written(c, RestartAndCall(w, m)) == [m] && AllUndisturbed(RestartAndCall(w, m))
  {
    var call := OneMoreCall(m);
    WrittenInCall(c, m);
    if w.process.Up? {
      assert ([Crash] + call)[1..] == call;
    }
    forall i | 0 <= i < |RestartAndCall(w, m)| ensures Undisturbed(RestartAndCall(w, m)[i]) {
      assert RestartAndCall(w, m)[i] in [Crash] + call;
    }
  }

  lemma WrittenInCall(c: MutationCodec, m: Mutation)
    ensures Written(c, OneMoreCall(m)) == [m]
  {
    assert OneMoreCall(m)[1..] == [LogRecord(m), ApplyToMemory, Crash];
    assert [LogRecord(m), ApplyToMemory, Crash][1..] == [ApplyToMemory, Crash];
    assert [ApplyToMemory, Crash][1..] == [Crash];
    assert [Crash][1..] == [];
    assert Written(c, [Crash]) == [];
    assert Written(c, [ApplyToMemory, Crash]) == [];
    assert Written(c, [LogRecord(m), ApplyToMemory, Crash]) == [m];
  }

  /** At any moment the store keeps everything it writes from then on, for any number of calls,
      snapshots and crashes between steps, exactly when its log holds no unterminated record. */
  lemma AllLaterRunsSurviveIffClean(c: MutationCodec, every: nat, run: seq<Event>)
    requires JsonCodec(c) && Possible(c, every, INITIAL, run) && CleanAppends(c, every, INITIAL, run)
    requires Recover(c, After(c, every, INITIAL, run).disk).Some?
    ensures KeepsEverything(c, every, After(c, every, INITIAL, run), Written(c, run))
            <==> CleanTail(After(c, every, INITIAL, run).disk.wal)
  {
    var w, log := After(c, every, INITIAL, run), Written(c, run);
    var rs, r, k := ReachedShape(c, every, run);
    ShapeReads(c, w.disk.wal, rs, r, k);
    if CleanTail(w.disk.wal) {
      forall later | Possible(c, every, w, later) && AllUndisturbed(later)
        ensures Recover(c, After(c, every, w, later).disk) == Some(Replay(EMPTY, log + Written(c, later)))
      {
        CleanStartSurvives(c, every, EMPTY, w, later, log, TearsCharacter(c, run), rs, r);
      }
    } else {
      var m := DistinctWrite(Replay(w.disk.snapshot, rs));
      RestartAndCallRuns(c, every, w, m);
      RestartAndCallWrites(c, w, m);
      NextCallRecovers(c, every, w.(process := Down), rs, r, k, m);
      ReplaySnoc(EMPTY, log, m);
      assert Recover(c, After(c, every, w, RestartAndCall(w, m)).disk) == Some(Replay(w.disk.snapshot, rs));
    }
  }

  // ---- a truncated log starts afresh ----

  lemma {:induction false} SplitLast(c: MutationCodec, every: nat, w: World, run: seq<Event>)
    requires Possible(c, every, w, run) && run != []
    ensures var front := run[..|run| - 1];
            && Possible(c, every, w, front) && Enabled(c, After(c, every, w, front), run[|run| - 1])
            && After(c, every, w, run) == Next(c, every, After(c, every, w, front), run[|run| - 1])
    decreases |run|
  {
    if |run| == 1 {
      assert run[..0] == [] && run[1..] == [];
    } else {
      var next := Next(c, every, w, run[0]);
      SplitLast(c, every, next, run[1..]);
      assert run[..|run| - 1][1..] == run[1..][..|run| - 2];
    }
  }

  /** Between rename and truncate the snapshot on disk is the memory. */
  predicate RenamedHolds(w: World) {
    w.process.Up? && w.process.phase.Renamed? ==> w.disk.snapshot == w.process.memory
  }

  lemma {:induction false} RunKeepsRenamed(c: MutationCodec, every: nat, w: World, run: seq<Event>)
    requires Possible(c, every, w, run) && RenamedHolds(w)
    ensures RenamedHolds(After(c, every, w, run))
    decreases |run|
  {
    if run != [] {
      RunKeepsRenamed(c, every, Next(c, every, w, run[0]), run[1..]);
    }
  }

  /** Whatever happened before, records lost behind an unterminated one included: once a snapshot of
      an encodable memory is complete and the log truncated, every later undisturbed run recovers to
      that memory and everything written since. */
  lemma TruncateHeals(c: MutationCodec, every: nat, run: seq<Event>, later: seq<Event>)
    requires JsonCodec(c) && Possible(c, every, INITIAL, run) && run != [] && run[|run| - 1].TruncateLog?
    requires var w := After(c, every, INITIAL, run);
             w.process.Up? && GraphEncodable(w.process.memory) && Possible(c, every, w, later)
    requires AllUndisturbed(later)
    ensures var w := After(c, every, INITIAL, run);
            Recover(c, After(c, every, w, later).disk) == Some(Replay(w.process.memory, Written(c, later)))
  {
    var w := After(c, every, INITIAL, run);
    var m := DeleteNode("");
    SplitLast(c, every, INITIAL, run);
    RunKeepsRenamed(c, every, INITIAL, run[..|run| - 1]);
    assert w.disk == Disk(w.process.memory, []);
    assert Inv(c, w.process.memory, w, [], false, [], m, 0) by {
      assert ParsesBack(c, m);
      assert FrameAll(c, []) + Framed(c, m)[..0] == [];
    }
    CleanStartSurvives(c, every, w.process.memory, w, later, [], false, [], m);
    assert [] + Written(c, later) == Written(c, later);
  }

  // ---- mutations JSON cannot hold ----

  predicate NoSnapshots(run: seq<Event>) {
    forall i :: 0 <= i < |run| ==> !run[i].RenameSnapshot?
  }

  /** An acknowledged mutation that cannot be encoded hides itself and every record behind it from
      every reopening, until a snapshot replaces the log. */
  lemma {:induction false} UnencodableHidesTheRest(c: MutationCodec, every: nat, w: World, rs: seq<Mutation>,
                                                   m: Mutation,
                                                   tail: Bytes, run: seq<Event>)
    requires JsonCodec(c) && AllEncodable(rs) && !Encodable(m) && GraphEncodable(w.disk.snapshot)
    requires w.disk.wal == FrameAll(c, rs + [m]) + tail && !(w.process.Up? && w.process.phase.Renamed?)
    requires Possible(c, every, w, run) && NoSnapshots(run)
    ensures Recover(c, After(c, every, w, run).disk) == Some(Replay(w.disk.snapshot, rs))
    decreases |run|
  {
    if run == [] {
      PoisonedRead(c, rs, m, tail);
    } else {
      var next := Next(c, every, w, run[0]);
      assert !run[0].RenameSnapshot? && NoSnapshots(run[1..]);
      var more := AddedBytes(c, run[0]);
      assert next.disk.wal == FrameAll(c, rs + [m]) + (tail + more);
      UnencodableHidesTheRest(c, every, next, rs, m, tail + more, run[1..]);
    }
  }

  function AddedBytes(c: MutationCodec, e: Event): Bytes {
    match e
    case LogRecord(m) => Framed(c, m)
    case TearRecord(m, k) => if k < |Framed(c, m)| then Framed(c, m)[..k] else []
    case FailAppend(m, k) => if k < |Framed(c, m)| then Framed(c, m)[..k] else []
    case _ => []
  }

  lemma PoisonedRead(c: MutationCodec, rs: seq<Mutation>, m: Mutation, tail: Bytes)
    requires JsonCodec(c) && AllEncodable(rs) && !Encodable(m)
    ensures Read(c, FrameAll(c, rs + [m]) + tail) == Records(rs)
  {
    EncodableIsStorable(c, rs);
    assert !c.storable(m) by {
      assert c.storable(m) == Encodable(m);
    }
    FrameAllSnoc(c, rs, m);
    assert ParsesBack(c, m);
    assert FrameAll(c, rs + [m]) + tail == FrameAll(c, rs) + (c.encode(m) + [NEWLINE] + tail);
    ReadAfterFrames(c, rs, c.encode(m) + [NEWLINE] + tail);
    ReadLine(c, c.encode(m), tail);
    PrependEmpty(rs);
  }

  /** Once in a snapshot it is fatal: after the next crash no run goes on from this disk. */
  lemma UnencodableSnapshotIsFatal(c: MutationCodec, every: nat, m: Mutation, later: seq<Event>)
    requires !Encodable(m) && c.classify([]).Blank?
    ensures var run := [Reopen, LogRecord(m), ApplyToMemory, RenameSnapshot, Crash];
            && Possible(c, every, INITIAL, run) && After(c, every, INITIAL, run).process.Down?
            && (Possible(c, every, After(c, every, INITIAL, run), later) ==> later == [])
  {
    var w := INITIAL;
    OneMoreStep(c, every, w, [], Reopen);
    assert [] + [Reopen] == [Reopen];
    OneMoreStep(c, every, w, [Reopen], LogRecord(m));
    assert [Reopen] + [LogRecord(m)] == [Reopen, LogRecord(m)];
    OneMoreStep(c, every, w, [Reopen, LogRecord(m)], ApplyToMemory);
    assert [Reopen, LogRecord(m)] + [ApplyToMemory] == [Reopen, LogRecord(m), ApplyToMemory];
    var up := [Reopen, LogRecord(m), ApplyToMemory];
    OneMoreStep(c, every, w, up, RenameSnapshot);
    OneMoreStep(c, every, w, up + [RenameSnapshot], Crash);
    assert up + [RenameSnapshot] + [Crash] == [Reopen, LogRecord(m), ApplyToMemory, RenameSnapshot, Crash];
    ApplyEncodable(EMPTY, m);
    assert Replay(EMPTY, []) == EMPTY;
  }

  // ---- snapshots over an unterminated log ----

  /** Where the first half of the run below leaves the disk: one record and the start of another. */
  lemma TornAfterOne(c: MutationCodec, every: nat, first: Mutation, torn: Mutation, k: nat)
    requires JsonCodec(c) && every > 1 && k < |Framed(c, torn)| && Encodable(first)
    ensures var run := [Reopen, LogRecord(first), ApplyToMemory, TearRecord(torn, k)];
            && Possible(c, every, INITIAL, run)
            && After(c, every, INITIAL, run) == World(Disk(EMPTY, FrameAll(c, [first]) + Framed(c, torn)[..k]), Down)
  {
    OneMoreStep(c, every, INITIAL, [], Reopen);
    assert [] + [Reopen] == [Reopen];
    OneMoreStep(c, every, INITIAL, [Reopen], LogRecord(first));
    assert [Reopen] + [LogRecord(first)] == [Reopen, LogRecord(first)];
    OneMoreStep(c, every, INITIAL, [Reopen, LogRecord(first)], ApplyToMemory);
    var up := [Reopen, LogRecord(first), ApplyToMemory];
    assert [Reopen, LogRecord(first)] + [ApplyToMemory] == up;
    OneMoreStep(c, every, INITIAL, up, TearRecord(torn, k));
    assert up + [TearRecord(torn, k)] == [Reopen, LogRecord(first), ApplyToMemory, TearRecord(torn, k)];
    FrameOne(c, first);
    assert [] + Framed(c, first) == Framed(c, first);
  }

  lemma GluedRun(c: MutationCodec, every: nat, torn: Mutation, k: nat, first: Mutation, second: Mutation)
    requires JsonCodec(c) && every > 1 && 0 < k < |c.encode(torn)| && !CutInsideCharacter(c, torn, k)
    requires Encodable(first)
    ensures var run := [Reopen, LogRecord(first), ApplyToMemory, TearRecord(torn, k),
                        Reopen, LogRecord(second), ApplyToMemory, RenameSnapshot, Crash];
            && Possible(c, every, INITIAL, run)
            && After(c, every, INITIAL, run).disk ==
               Disk(Apply(Apply(EMPTY, first), second), FrameAll(c, [first]) + Framed(c, torn)[..k] + Framed(c, second))
  {
    var start := [Reopen, LogRecord(first), ApplyToMemory, TearRecord(torn, k)];
    TornAfterOne(c, every, first, torn, k);
    var wal := FrameAll(c, [first]) + Framed(c, torn)[..k];
    ShapeReads(c, wal, [first], torn, k);
    ReplaySnoc(EMPTY, [], first);
    assert [] + [first] == [first];
    assert Recover(c, Disk(EMPTY, wal)) == Some(Apply(EMPTY, first));
    OneMoreStep(c, every, INITIAL, start, Reopen);
    OneMoreStep(c, every, INITIAL, start + [Reopen], LogRecord(second));
    OneMoreStep(c, every, INITIAL, start + [Reopen] + [LogRecord(second)], ApplyToMemory);
    OneMoreStep(c, every, INITIAL, start + [Reopen] + [LogRecord(second)] + [ApplyToMemory], RenameSnapshot);
    OneMoreStep(c, every, INITIAL, start + [Reopen] + [LogRecord(second)] + [ApplyToMemory] + [RenameSnapshot], Crash);
    assert start + [Reopen] + [LogRecord(second)] + [ApplyToMemory] + [RenameSnapshot] + [Crash] ==
           [Reopen, LogRecord(first), ApplyToMemory, TearRecord(torn, k),
            Reopen, LogRecord(second), ApplyToMemory, RenameSnapshot, Crash];
  }

  /** A snapshot does not help until the log is truncated: with an unterminated record in
      the way, the reader replays only a prefix of the log over the newer snapshot, and
      that undoes the second of two acknowledged writes although the snapshot holds it. */
  lemma SnapshotOverGluedLogRollsBack(c: MutationCodec, every: nat, torn: Mutation, k: nat)
      returns (first: Mutation, second: Mutation, run: seq<Event>)
    requires JsonCodec(c) && every > 1 && 0 < k < |c.encode(torn)| && !CutInsideCharacter(c, torn, k)
    ensures run == [Reopen, LogRecord(first), ApplyToMemory, TearRecord(torn, k),
                    Reopen, LogRecord(second), ApplyToMemory, RenameSnapshot, Crash]
    ensures Encodable(first) && Encodable(second) && Possible(c, every, INITIAL, run)
    ensures After(c, every, INITIAL, run).disk.snapshot == Apply(Apply(EMPTY, first), second)
    ensures Recover(c, After(c, every, INITIAL, run).disk).Some?
    ensures Recover(c, After(c, every, INITIAL, run).disk).value != Apply(Apply(EMPTY, first), second)
  {
    first, second := UpsertNode(Node("n", ["old"], map[], None)), UpsertNode(Node("n", ["new"], map[], None));
    GluedRun(c, every, torn, k, first, second);
    run := [Reopen, LogRecord(first), ApplyToMemory, TearRecord(torn, k),
            Reopen, LogRecord(second), ApplyToMemory, RenameSnapshot, Crash];
    var snapshot := Apply(Apply(EMPTY, first), second);
    AppendToCut(c, Disk(snapshot, FrameAll(c, [first]) + Framed(c, torn)[..k]), [first], torn, k, second);
    ReplaySnoc(snapshot, [], first);
    assert [] + [first] == [first];
    assert Apply(snapshot, first).nodes["n"].labels == ["old"] && snapshot.nodes["n"].labels == ["new"];
    assert ["old"][0] == "old" && ["new"][0] == "new" && "old"[0] != "new"[0];
  }
}
