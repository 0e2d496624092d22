/**
 * The leased work queue of one session: the inbound table, the cancel flags and the outbound table,
 * the operations on them as steps of a timed state machine, and what every run of those steps keeps.
 *
 * A table is a sequence of rows in insertion order. Nothing deletes an inbound row, so a message is
 * known by its position, and `ORDER BY seq` is table order (see `Inv`). Times are whole seconds.
 * Every operation is one step: the session daemon serves one request at a time.
 */
module SessionQueue {
  import opened Text

  type Id = string
  type Second = int

  datatype Status = Pending | Processing | Completed | Failed

  datatype Address = Address(channel: string, platform: string, thread: Option<string>)

  datatype Inbound = Inbound(
    id: Id, seqNo: nat, kind: string, from: Address, content: string,
    status: Status, tries: nat, processAfter: Option<Second>, statusChanged: Second)

  /** `GaveUp` is the fixed apology a dead-lettered request is answered with. */
  datatype Body = Written(text: string) | GaveUp

  datatype Outbound = Outbound(inReplyTo: Option<Id>, kind: string, to: Address, body: Body)

  /** The policy as configured; the accessors clamp it the way recovery does. */
  datatype Policy = Policy(leaseSeconds: int, maxTries: int, backoffSeconds: int) {
    function Lease(): (n: nat)
      ensures n >= leaseSeconds && (leaseSeconds >= 0 ==> n == leaseSeconds) && (leaseSeconds <= 0 ==> n == 0)
    {
      if leaseSeconds < 0 then 0 else leaseSeconds
    }

    function Backoff(): (n: nat)
      ensures n >= backoffSeconds && (backoffSeconds >= 0 ==> n == backoffSeconds) && (backoffSeconds <= 0 ==> n == 0)
    {
      if backoffSeconds < 0 then 0 else backoffSeconds
    }

    function Tries(): (n: nat)
      ensures n >= 1 && n >= maxTries && (maxTries >= 1 ==> n == maxTries) && (maxTries <= 1 ==> n == 1)
    {
      if maxTries < 1 then 1 else maxTries
    }
  }

  const DEFAULT_POLICY := Policy(420, 5, 15)

  /** The six clock readings of one claim, in the order the code takes them. */
  datatype Clock = Clock(now: Second, recover: Second, listDead: Second, bury: Second, select: Second, stamp: Second) {
    predicate Ordered() { now <= recover <= listDead <= bury <= select <= stamp }
  }

  datatype Queue = Queue(rows: seq<Inbound>, cancels: set<Id>, outbound: seq<Outbound>)

  const NO_ROWS := Queue([], {}, [])

  /** `lost` names the dead messages whose notice could not be written; the code ignores that error. */
  datatype Event =
    | Insert(id: Id, kind: string, from: Address, content: string, now: Second)
    | Claim(clock: Clock, limit: nat, lost: set<Id>)
    | Complete(ids: seq<Id>, now: Second)
    | Requeue(id: Id, now: Second)
    | CancelPending(now: Second)
    | RequestCancel
    | WriteOutbound(message: Outbound)

  // ---------------------------------------------------------------- row updates

  /** The lease of a claimed row has run out at second `t`. */
  predicate Expired(p: Policy, r: Inbound, t: Second) {
    r.status.Processing? && r.statusChanged + p.Lease() <= t
  }

  function RecoverRow(p: Policy, c: Clock, r: Inbound): Inbound {
    if Expired(p, r, c.recover) && r.tries < p.Tries()
    then r.(status := Pending, statusChanged := c.now, processAfter := Some(c.recover + p.Backoff()))
    else r
  }

  predicate Exhausted(p: Policy, r: Inbound, t: Second) {
    Expired(p, r, t) && r.tries >= p.Tries()
  }

  function BuryRow(p: Policy, c: Clock, r: Inbound): Inbound {
    if Exhausted(p, r, c.bury) then r.(status := Failed, statusChanged := c.now) else r
  }

  function SettleRow(p: Policy, c: Clock, r: Inbound): Inbound {
    BuryRow(p, c, RecoverRow(p, c, r))
  }

  function HandRow(r: Inbound, t: Second): Inbound {
    r.(status := Processing, tries := r.tries + 1, statusChanged := t)
  }

  predicate Due(r: Inbound, t: Second) {
    r.status.Pending? && (r.processAfter.None? || r.processAfter.value <= t)
  }

  function NoticeFor(r: Inbound): Outbound {
    Outbound(Some(r.id), "chat", r.from, GaveUp)
  }

  function Ids(rows: seq<Inbound>): set<Id> {
    set r | r in rows :: r.id
  }

  function Updated(f: Inbound -> Inbound, rows: seq<Inbound>): (r: seq<Inbound>)
    ensures |r| == |rows| && forall k :: 0 <= k < |r| ==> r[k] == f(rows[k])
  {
    seq(|rows|, k requires 0 <= k < |rows| => f(rows[k]))
  }

  function Recovered(p: Policy, c: Clock, rows: seq<Inbound>): (r: seq<Inbound>)
    ensures |r| == |rows| && forall k :: 0 <= k < |r| ==> r[k] == RecoverRow(p, c, rows[k])
  {
    Updated(r => RecoverRow(p, c, r), rows)
  }

  /** The table once expired leases are recovered and exhausted ones dead-lettered. */
  function Settled(p: Policy, c: Clock, rows: seq<Inbound>): (r: seq<Inbound>)
    ensures |r| == |rows| && forall k :: 0 <= k < |r| ==> r[k] == SettleRow(p, c, rows[k])
  {
    Updated(r => BuryRow(p, c, r), Recovered(p, c, rows))
  }

  /** The dead-letter query: the exhausted rows in table order. */
  function Dead(p: Policy, rows: seq<Inbound>, t: Second): seq<Inbound> {
    if rows == [] then []
    else if Exhausted(p, rows[0], t) then [rows[0]] + Dead(p, rows[1..], t)
    else Dead(p, rows[1..], t)
  }

  function Notices(dead: seq<Inbound>, lost: set<Id>): seq<Outbound> {
    if dead == [] then []
    else if dead[|dead| - 1].id in lost then Notices(dead[..|dead| - 1], lost)
    else Notices(dead[..|dead| - 1], lost) + [NoticeFor(dead[|dead| - 1])]
  }

  // ---------------------------------------------------------------- which rows a claim takes

  /** How many of the first `k` rows are due. */
  function DueBefore(rows: seq<Inbound>, t: Second, k: nat): nat
    requires k <= |rows|
  {
    if k == 0 then 0 else DueBefore(rows, t, k - 1) + (if Due(rows[k - 1], t) then 1 else 0)
  }

  /** Row `k` is taken: it is due and fewer than `limit` due rows come before it. */
  predicate Picks(rows: seq<Inbound>, t: Second, limit: nat, k: nat)
    requires k < |rows|
  {
    Due(rows[k], t) && DueBefore(rows, t, k) < limit
  }

  /** The claim query on the first `n` rows: due rows in order, cut at `limit`. */
  function Select(rows: seq<Inbound>, t: Second, limit: nat, n: nat): (picked: seq<Inbound>)
    requires n <= |rows|
  {
    if n == 0 then []
    else
      var before := Select(rows, t, limit, n - 1);
      if Due(rows[n - 1], t) && |before| < limit then before + [rows[n - 1]] else before
  }

  function Handed(rows: seq<Inbound>, c: Clock, limit: nat): (r: seq<Inbound>)
    ensures |r| == |rows|
    ensures forall k :: 0 <= k < |r| ==>
      r[k] == if Picks(rows, c.select, limit, k) then HandRow(rows[k], c.stamp) else rows[k]
  {
    seq(|rows|, k requires 0 <= k < |rows| =>
      if Picks(rows, c.select, limit, k) then HandRow(rows[k], c.stamp) else rows[k])
  }

  // ---------------------------------------------------------------- the steps

  function MaxSeq(rows: seq<Inbound>): nat {
    if rows == [] then 0
    else
      var m := MaxSeq(rows[..|rows| - 1]);
      if rows[|rows| - 1].seqNo > m then rows[|rows| - 1].seqNo else m
  }

  function CompleteRow(ids: set<Id>, now: Second, r: Inbound): Inbound {
    if r.id in ids then r.(status := Completed, statusChanged := now) else r
  }

  function RequeueRow(id: Id, now: Second, r: Inbound): Inbound {
    if r.id == id then r.(status := Pending, tries := 0, processAfter := None, statusChanged := now) else r
  }

  function CancelRow(now: Second, r: Inbound): Inbound {
    if r.status.Pending? then r.(status := Failed, statusChanged := now) else r
  }

  function InFlight(rows: seq<Inbound>): set<Id> {
    set r | r in rows && r.status.Processing? :: r.id
  }

  function Next(p: Policy, q: Queue, e: Event): Queue {
    match e
    case Insert(id, kind, from, content, now) =>
      if id in Ids(q.rows) then q
      else q.(rows := q.rows + [Inbound(id, MaxSeq(q.rows) + 1, kind, from, content, Pending, 0, None, now)])
    case Claim(c, limit, lost) =>
      Queue(Handed(Settled(p, c, q.rows), c, limit), q.cancels,
            q.outbound + Notices(Dead(p, Recovered(p, c, q.rows), c.listDead), lost))
    case Complete(ids, now) =>
      q.(rows := Updated(r => CompleteRow(SetOf(ids), now, r), q.rows), cancels := q.cancels - SetOf(ids))
    case Requeue(id, now) => q.(rows := Updated(r => RequeueRow(id, now, r), q.rows))
    case CancelPending(now) => q.(rows := Updated(r => CancelRow(now, r), q.rows))
    case RequestCancel => q.(cancels := q.cancels + InFlight(q.rows))
    case WriteOutbound(message) => q.(outbound := q.outbound + [message])
  }

  /** A run: its events, and the queue before the first and after each of them. */
  datatype History = History(events: seq<Event>, states: seq<Queue>)

  ghost predicate Steps(p: Policy, h: History, i: nat)
    requires i < |h.events| && |h.states| == |h.events| + 1
  {
    h.states[i + 1] == Next(p, h.states[i], h.events[i])
  }

  /** `h` is a run from empty tables, in which no claim sees its clock go back while it works. */
  ghost predicate Runs(p: Policy, h: History) {
    && |h.states| == |h.events| + 1
    && h.states[0] == NO_ROWS
    && (forall i {:trigger Steps(p, h, i)} :: 0 <= i < |h.events| ==> Steps(p, h, i))
    && (forall i :: 0 <= i < |h.events| ==> Ordered(h.events[i]))
  }

  predicate Ordered(e: Event) {
    e.Claim? ==> e.clock.Ordered()
  }

  /** Every list of events is the event list of a run. */
  lemma {:induction false} EveryRunExists(p: Policy, es: seq<Event>) returns (h: History)
    requires forall i :: 0 <= i < |es| ==> Ordered(es[i])
    ensures Runs(p, h) && h.events == es
  {
    if es == [] {
      h := History([], [NO_ROWS]);
    } else {
      var last := |es| - 1;
      var before := EveryRunExists(p, es[..last]);
      h := History(es, before.states + [Next(p, before.states[last], es[last])]);
      forall i | 0 <= i < |es| ensures Steps(p, h, i) {
        if i < last {
          assert Steps(p, before, i);
        }
      }
    }
  }

  // ---------------------------------------------------------------- what every run keeps

  predicate RowOk(p: Policy, r: Inbound) {
    && (r.status.Pending? ==> r.tries < p.Tries())
    && (r.status.Processing? ==> 1 <= r.tries <= p.Tries())
  }

  ghost predicate UniqueIds(rows: seq<Inbound>) {
    forall i, j :: 0 <= i < j < |rows| ==> rows[i].id != rows[j].id
  }

  ghost predicate RowsOk(p: Policy, rows: seq<Inbound>) {
    forall k :: 0 <= k < |rows| ==> RowOk(p, rows[k])
  }

  /** The sequence numbers count the rows, so ordering by them is table order. */
  predicate Numbered(rows: seq<Inbound>) {
    forall k :: 0 <= k < |rows| ==> rows[k].seqNo == k + 1
  }

  /** Only known messages are flagged, and no completed one. */
  ghost predicate FlagsOk(q: Queue) {
    && (forall k :: 0 <= k < |q.rows| && q.rows[k].status.Completed? ==> q.rows[k].id !in q.cancels)
    && q.cancels <= Ids(q.rows)
  }

  ghost predicate Inv(p: Policy, q: Queue) {
    UniqueIds(q.rows) && RowsOk(p, q.rows) && Numbered(q.rows) && FlagsOk(q)
  }

  /** What a message is, whatever happens to its status. */
  predicate SameMessage(a: Inbound, b: Inbound) {
    a.id == b.id && a.seqNo == b.seqNo && a.kind == b.kind && a.from == b.from && a.content == b.content
  }

  lemma {:induction false} MaxSeqIsCount(rows: seq<Inbound>)
    requires forall k :: 0 <= k < |rows| ==> rows[k].seqNo == k + 1
    ensures MaxSeq(rows) == |rows|
  {
    if rows != [] {
      MaxSeqIsCount(rows[..|rows| - 1]);
    }
  }

  /** No step removes or rewrites a message; only an accepted insert adds one. */
  lemma StepKeepsMessages(p: Policy, q: Queue, e: Event)
    ensures |q.rows| <= |Next(p, q, e).rows| <= |q.rows| + 1
    ensures forall k :: 0 <= k < |q.rows| ==> SameMessage(q.rows[k], Next(p, q, e).rows[k])
    ensures |Next(p, q, e).rows| > |q.rows| <==> e.Insert? && e.id !in Ids(q.rows)
  {
  }

  lemma SameIds(a: seq<Inbound>, b: seq<Inbound>)
    requires |a| == |b| && forall k :: 0 <= k < |a| ==> SameMessage(a[k], b[k])
    ensures Ids(a) == Ids(b)
  {
    forall id ensures id in Ids(a) <==> id in Ids(b) {
      if id in Ids(a) {
        var k :| 0 <= k < |a| && a[k].id == id;
        assert SameMessage(a[k], b[k]) && b[k] in b;
      }
      if id in Ids(b) {
        var k :| 0 <= k < |b| && b[k].id == id;
        assert SameMessage(a[k], b[k]) && a[k] in a;
      }
    }
  }

  lemma AppendKeepsInv(p: Policy, q: Queue, r: Inbound)
    requires Inv(p, q) && r.id !in Ids(q.rows) && RowOk(p, r) && r.seqNo == |q.rows| + 1
    ensures Inv(p, q.(rows := q.rows + [r]))
  {
    var rows := q.rows + [r];
    assert forall k :: 0 <= k < |q.rows| ==> q.rows[k] in q.rows;
    assert Ids(rows) == Ids(q.rows) + {r.id};
  }

  lemma InsertKeepsInv(p: Policy, q: Queue, e: Event)
    requires Inv(p, q) && e.Insert?
    ensures Inv(p, Next(p, q, e))
  {
    if e.id !in Ids(q.rows) {
      MaxSeqIsCount(q.rows);
      AppendKeepsInv(p, q, Inbound(e.id, |q.rows| + 1, e.kind, e.from, e.content, Pending, 0, None, e.now));
    }
  }

  lemma ClaimRowOk(p: Policy, c: Clock, r: Inbound)
    requires RowOk(p, r)
    ensures RowOk(p, SettleRow(p, c, r))
    ensures Due(SettleRow(p, c, r), c.select) ==> RowOk(p, HandRow(SettleRow(p, c, r), c.stamp))
  {
  }

  lemma StepKeepsRowsOk(p: Policy, q: Queue, e: Event)
    requires RowsOk(p, q.rows) && !e.Insert?
    ensures RowsOk(p, Next(p, q, e).rows)
  {
    var after := Next(p, q, e);
    forall k | 0 <= k < |after.rows| ensures RowOk(p, after.rows[k]) {
      assert RowOk(p, q.rows[k]);
      if e.Claim? {
        ClaimRowOk(p, e.clock, q.rows[k]);
      }
    }
  }

  lemma StepKeepsFlagsOk(p: Policy, q: Queue, e: Event)
    requires UniqueIds(q.rows) && FlagsOk(q) && !e.Insert?
    ensures FlagsOk(Next(p, q, e))
  {
    var after := Next(p, q, e);
    StepKeepsMessages(p, q, e);
    SameIds(q.rows, after.rows);
    if e.RequestCancel? {
      FlagsAreInFlight(q);
    }
    forall k | 0 <= k < |after.rows| && after.rows[k].status.Completed? ensures after.rows[k].id !in after.cancels {
      assert SameMessage(q.rows[k], after.rows[k]);
    }
  }

  lemma SameMessagesKeepOrder(a: seq<Inbound>, b: seq<Inbound>)
    requires |a| == |b| && (forall k :: 0 <= k < |a| ==> SameMessage(a[k], b[k])) && UniqueIds(a) && Numbered(a)
    ensures UniqueIds(b) && Numbered(b)
  {
  }

  lemma StepKeepsInv(p: Policy, q: Queue, e: Event)
    requires Inv(p, q)
    ensures Inv(p, Next(p, q, e))
  {
    if e.Insert? {
      InsertKeepsInv(p, q, e);
    } else {
      StepKeepsMessages(p, q, e);
      SameMessagesKeepOrder(q.rows, Next(p, q, e).rows);
      StepKeepsRowsOk(p, q, e);
      StepKeepsFlagsOk(p, q, e);
    }
  }

  lemma FlagsAreInFlight(q: Queue)
    requires UniqueIds(q.rows)
    ensures InFlight(q.rows) <= Ids(q.rows)
    ensures forall k :: 0 <= k < |q.rows| ==> (q.rows[k].id in InFlight(q.rows) <==> q.rows[k].status.Processing?)
  {
    forall k | 0 <= k < |q.rows| ensures q.rows[k].id in InFlight(q.rows) <==> q.rows[k].status.Processing? {
      if q.rows[k].id in InFlight(q.rows) {
        var j :| 0 <= j < |q.rows| && q.rows[j].status.Processing? && q.rows[j].id == q.rows[k].id;
        assert j == k;
      }
    }
  }

  lemma StepAtKeepsInv(p: Policy, h: History, i: nat)
    requires Runs(p, h) && i < |h.events| && Inv(p, h.states[i])
    ensures Inv(p, h.states[i + 1])
  {
    StepKeepsInv(p, h.states[i], h.events[i]);
    assert Steps(p, h, i);
  }

  /** Pending means tries left, processing means 1 to `max_tries` tries, completed means no cancel flag. */
  lemma {:induction false} RunKeepsInv(p: Policy, h: History, n: nat)
    requires Runs(p, h) && n <= |h.events|
    ensures Inv(p, h.states[n])
  {
    if n > 0 {
      RunKeepsInv(p, h, n - 1);
      StepAtKeepsInv(p, h, n - 1);
    }
  }

  // ---------------------------------------------------------------- counting

  /** How many of the first `n` rows are in a status. */
  function Count(rows: seq<Inbound>, s: Status, n: nat): nat
    requires n <= |rows|
  {
    if n == 0 then 0 else Count(rows, s, n - 1) + (if rows[n - 1].status == s then 1 else 0)
  }

  /** Where they are. */
  function Having(rows: seq<Inbound>, s: Status, n: nat): set<int>
    requires n <= |rows|
  {
    set k | 0 <= k < n && rows[k].status == s
  }

  lemma {:induction false} CountIsHaving(rows: seq<Inbound>, s: Status, n: nat)
    requires n <= |rows|
    ensures Count(rows, s, n) == |Having(rows, s, n)|
  {
    if n > 0 {
      CountIsHaving(rows, s, n - 1);
      var front := Having(rows, s, n - 1);
      if rows[n - 1].status == s {
        assert Having(rows, s, n) == front + {n - 1};
      } else {
        assert Having(rows, s, n) == front;
      }
    }
  }

  datatype Stats = Stats(pending: nat, processing: nat, completed: nat, failed: nat) {
    function Total(): nat { pending + processing + completed + failed }
  }

  function QueueStats(rows: seq<Inbound>): Stats {
    var n := |rows|;
    Stats(Count(rows, Pending, n), Count(rows, Processing, n), Count(rows, Completed, n), Count(rows, Failed, n))
  }

  lemma {:induction false} StatsCountEveryRow(rows: seq<Inbound>, n: nat)
    requires n <= |rows|
    ensures Count(rows, Pending, n) + Count(rows, Processing, n)
            + Count(rows, Completed, n) + Count(rows, Failed, n) == n
  {
    if n > 0 {
      StatsCountEveryRow(rows, n - 1);
    }
  }

  /** Each figure is the number of rows in that status. */
  lemma StatsAreExact(rows: seq<Inbound>)
    ensures QueueStats(rows).pending == |set k | 0 <= k < |rows| && rows[k].status == Pending|
    ensures QueueStats(rows).processing == |set k | 0 <= k < |rows| && rows[k].status == Processing|
    ensures QueueStats(rows).completed == |set k | 0 <= k < |rows| && rows[k].status == Completed|
    ensures QueueStats(rows).failed == |set k | 0 <= k < |rows| && rows[k].status == Failed|
  {
    CountIsHaving(rows, Pending, |rows|);
    CountIsHaving(rows, Processing, |rows|);
    CountIsHaving(rows, Completed, |rows|);
    CountIsHaving(rows, Failed, |rows|);
  }

  /** Inserts the table accepted among the first `n` events. */
  function Inserted(p: Policy, h: History, n: nat): nat
    requires |h.states| == |h.events| + 1 && n <= |h.events|
  {
    if n == 0 then 0
    else Inserted(p, h, n - 1)
         + (if h.events[n - 1].Insert? && h.events[n - 1].id !in Ids(h.states[n - 1].rows) then 1 else 0)
  }

  lemma {:induction false} InsertsAreRows(p: Policy, h: History, n: nat)
    requires Runs(p, h) && n <= |h.events|
    ensures |h.states[n].rows| == Inserted(p, h, n)
  {
    if n > 0 {
      InsertsAreRows(p, h, n - 1);
      assert Steps(p, h, n - 1);
      StepKeepsMessages(p, h.states[n - 1], h.events[n - 1]);
    }
  }

  /** At every moment of every run the four status counts add up to the messages inserted. */
  lemma StatsConserveInserts(p: Policy, h: History, n: nat)
    requires Runs(p, h) && n <= |h.events|
    ensures QueueStats(h.states[n].rows).Total() == Inserted(p, h, n)
  {
    InsertsAreRows(p, h, n);
    StatsCountEveryRow(h.states[n].rows, |h.states[n].rows|);
  }

  // ---------------------------------------------------------------- hand-outs

  /** Event `e` hands message `k` to a worker. */
  predicate HandsOut(p: Policy, q: Queue, e: Event, k: nat) {
    && e.Claim?
    && k < |q.rows|
    && Picks(Settled(p, e.clock, q.rows), e.clock.select, e.limit, k)
  }

  predicate Requeues(q: Queue, e: Event, k: nat) {
    e.Requeue? && k < |q.rows| && q.rows[k].id == e.id
  }

  /** How often message `k` is handed out by the events from `i` up to `j`. */
  function HandOuts(p: Policy, h: History, i: nat, j: nat, k: nat): nat
    requires |h.states| == |h.events| + 1 && i <= j <= |h.events|
    decreases j
  {
    if i == j then 0
    else HandOuts(p, h, i, j - 1, k) + (if HandsOut(p, h.states[j - 1], h.events[j - 1], k) then 1 else 0)
  }

  /** How many of the numbers from `i` up to `j` are marked. */
  function Marks(marked: set<int>, i: nat, j: nat): nat
    requires i <= j
    decreases j
  {
    if i == j then 0 else Marks(marked, i, j - 1) + (if j - 1 in marked then 1 else 0)
  }

  lemma {:induction false} MarksAreCounted(marked: set<int>, i: nat, j: nat)
    requires i <= j
    ensures Marks(marked, i, j) == |set m | m in marked && i <= m < j|
    decreases j
  {
    var all := set m | m in marked && i <= m < j;
    if i < j {
      MarksAreCounted(marked, i, j - 1);
      var before := set m | m in marked && i <= m < j - 1;
      assert all == before + if j - 1 in marked then {j - 1} else {};
    } else {
      assert all == {};
    }
  }

  lemma {:induction false} HandOutsAreMarks(p: Policy, h: History, i: nat, j: nat, k: nat, marked: set<int>)
    requires |h.states| == |h.events| + 1 && i <= j <= |h.events|
    requires forall m: nat :: i <= m < j ==> (m in marked <==> HandsOut(p, h.states[m], h.events[m], k))
    ensures HandOuts(p, h, i, j, k) == Marks(marked, i, j)
    decreases j
  {
    if i < j {
      HandOutsAreMarks(p, h, i, j - 1, k, marked);
    }
  }

  /** That is the number of events that do so. */
  lemma HandOutsAreCounted(p: Policy, h: History, i: nat, j: nat, k: nat, events: set<int>)
    requires |h.states| == |h.events| + 1 && i <= j <= |h.events|
    requires forall m: int :: m in events <==> i <= m < j && HandsOut(p, h.states[m], h.events[m], k)
    ensures HandOuts(p, h, i, j, k) == |events|
  {
    HandOutsAreMarks(p, h, i, j, k, events);
    MarksAreCounted(events, i, j);
    assert events == set m | m in events && i <= m < j;
  }

  ghost predicate NoRequeue(p: Policy, h: History, i: nat, j: nat, k: nat)
    requires |h.states| == |h.events| + 1 && i <= j <= |h.events|
  {
    forall m :: i <= m < j ==> !Requeues(h.states[m], h.events[m], k)
  }

  /** The hand-outs message `k` can still have: the retry budget, as long as it is not settled. */
  function Room(p: Policy, q: Queue, k: nat): int {
    if k >= |q.rows| then p.Tries()
    else if q.rows[k].status.Pending? || q.rows[k].status.Processing? then p.Tries() - q.rows[k].tries
    else 0
  }

  lemma StepUsesRoom(p: Policy, q: Queue, e: Event, k: nat)
    requires Inv(p, q) && !Requeues(q, e, k)
    ensures Room(p, Next(p, q, e), k) + (if HandsOut(p, q, e, k) then 1 else 0) <= Room(p, q, k)
    ensures 0 <= Room(p, q, k) <= p.Tries()
  {
    if k < |q.rows| {
      assert RowOk(p, q.rows[k]);
    }
  }

  lemma {:induction false} HandOutsUseRoom(p: Policy, h: History, i: nat, j: nat, k: nat)
    requires Runs(p, h) && i <= j <= |h.events| && NoRequeue(p, h, i, j, k)
    ensures HandOuts(p, h, i, j, k) + Room(p, h.states[j], k) <= Room(p, h.states[i], k)
    ensures 0 <= Room(p, h.states[j], k) && Room(p, h.states[i], k) <= p.Tries()
    decreases j
  {
    RunKeepsInv(p, h, j);
    RunKeepsInv(p, h, i);
    StepUsesRoom(p, h.states[j], RequestCancel, k);
    StepUsesRoom(p, h.states[i], RequestCancel, k);
    if i < j {
      HandOutsUseRoom(p, h, i, j - 1, k);
      RunKeepsInv(p, h, j - 1);
      assert Steps(p, h, j - 1);
      StepUsesRoom(p, h.states[j - 1], h.events[j - 1], k);
    }
  }

  /** Between operator requeues a message is handed out at most `max_tries` times. */
  lemma RetryBudget(p: Policy, h: History, i: nat, j: nat, k: nat)
    requires Runs(p, h) && i <= j <= |h.events| && NoRequeue(p, h, i, j, k)
    ensures HandOuts(p, h, i, j, k) <= p.Tries()
  {
    HandOutsUseRoom(p, h, i, j, k);
  }

  /** A completed or failed message is never handed out again unless it is requeued. */
  lemma SettledIsFinal(p: Policy, h: History, i: nat, j: nat, k: nat)
    requires Runs(p, h) && i <= j < |h.events| && NoRequeue(p, h, i, j, k)
    requires k < |h.states[i].rows|
    requires h.states[i].rows[k].status.Completed? || h.states[i].rows[k].status.Failed?
    ensures !HandsOut(p, h.states[j], h.events[j], k)
  {
    HandOutsUseRoom(p, h, i, j, k);
    RunKeepsInv(p, h, j);
    if HandsOut(p, h.states[j], h.events[j], k) {
      StepUsesRoom(p, h.states[j], h.events[j], k);
      HandOutIsStamped(p, h.states[j], h.events[j], k);
    }
  }

  lemma HandOutIsStamped(p: Policy, q: Queue, e: Event, k: nat)
    requires Inv(p, q) && HandsOut(p, q, e, k)
    ensures k < |Next(p, q, e).rows|
    ensures Next(p, q, e).rows[k].status.Processing? && Next(p, q, e).rows[k].statusChanged == e.clock.stamp
    ensures Room(p, Next(p, q, e), k) >= 0
  {
    StepKeepsInv(p, q, e);
    assert RowOk(p, Next(p, q, e).rows[k]);
  }

  /** Message `k` has been out since second `t`, and cannot go out again before lease and back-off have passed. */
  predicate Leased(p: Policy, q: Queue, k: nat, t: Second) {
    && k < |q.rows|
    && var r := q.rows[k];
       && (r.status.Processing? ==> t <= r.statusChanged)
       && (r.status.Pending? ==> r.processAfter.Some? && t + p.Lease() + p.Backoff() <= r.processAfter.value)
  }

  lemma StepKeepsLeased(p: Policy, q: Queue, e: Event, k: nat, t: Second)
    requires Leased(p, q, k, t) && !Requeues(q, e, k)
    requires e.Claim? ==> e.clock.Ordered()
    ensures Leased(p, Next(p, q, e), k, t)
    ensures HandsOut(p, q, e, k) ==> t + p.Lease() + p.Backoff() <= e.clock.select
  {
  }

  lemma {:induction false} RunKeepsLeased(p: Policy, h: History, i: nat, j: nat, k: nat, t: Second)
    requires Runs(p, h) && i <= j <= |h.events| && NoRequeue(p, h, i, j, k)
    requires Leased(p, h.states[i], k, t)
    ensures Leased(p, h.states[j], k, t)
    decreases j
  {
    if i < j {
      RunKeepsLeased(p, h, i, j - 1, k, t);
      assert Steps(p, h, j - 1);
      StepKeepsLeased(p, h.states[j - 1], h.events[j - 1], k, t);
    }
  }

  lemma HandOutLeases(p: Policy, h: History, i: nat, k: nat)
    requires Runs(p, h) && i < |h.events| && HandsOut(p, h.states[i], h.events[i], k)
    ensures Leased(p, h.states[i + 1], k, h.events[i].clock.stamp)
  {
    RunKeepsInv(p, h, i);
    assert Steps(p, h, i);
    HandOutIsStamped(p, h.states[i], h.events[i], k);
  }

  /** Two hand-outs of a message without a requeue between them are at least lease + back-off apart. */
  lemma HandOutsAreSpaced(p: Policy, h: History, i: nat, j: nat, k: nat)
    requires Runs(p, h) && i < j < |h.events| && NoRequeue(p, h, i + 1, j, k)
    requires HandsOut(p, h.states[i], h.events[i], k) && HandsOut(p, h.states[j], h.events[j], k)
    ensures h.events[i].clock.stamp + p.Lease() + p.Backoff() <= h.events[j].clock.select <= h.events[j].clock.stamp
  {
    HandOutLeases(p, h, i, k);
    RunKeepsLeased(p, h, i + 1, j, k, h.events[i].clock.stamp);
    StepKeepsLeased(p, h.states[j], h.events[j], k, h.events[i].clock.stamp);
  }

  /** Under the default policy: at most five hand-outs, each at least 435 seconds after the one before. */
  lemma DefaultPolicyBounds(h: History, i: nat, j: nat, k: nat)
    requires Runs(DEFAULT_POLICY, h) && i < j < |h.events| && NoRequeue(DEFAULT_POLICY, h, i, j, k)
    ensures HandOuts(DEFAULT_POLICY, h, i, j, k) <= 5
    ensures HandsOut(DEFAULT_POLICY, h.states[i], h.events[i], k) &&
            HandsOut(DEFAULT_POLICY, h.states[j], h.events[j], k) ==>
      h.events[i].clock.stamp + 435 <= h.events[j].clock.stamp
  {
    RetryBudget(DEFAULT_POLICY, h, i, j, k);
    if HandsOut(DEFAULT_POLICY, h.states[i], h.events[i], k) && HandsOut(DEFAULT_POLICY, h.states[j], h.events[j], k) {
      HandOutsAreSpaced(DEFAULT_POLICY, h, i, j, k);
    }
  }

  // ---------------------------------------------------------------- what a claim returns

  lemma {:induction false} DueBeforeMonotone(rows: seq<Inbound>, t: Second, i: nat, k: nat)
    requires i <= k <= |rows|
    ensures DueBefore(rows, t, i) <= DueBefore(rows, t, k)
    ensures i < k && Due(rows[i], t) ==> DueBefore(rows, t, i) < DueBefore(rows, t, k)
    decreases k
  {
    if i < k {
      DueBeforeMonotone(rows, t, i, k - 1);
    }
  }

  /** The query returns exactly the picked rows: the first `limit` due ones, all of them when fewer are due. */
  lemma {:induction false} SelectIsPicks(rows: seq<Inbound>, t: Second, limit: nat, n: nat)
    requires n <= |rows|
    ensures |Select(rows, t, limit, n)| == if DueBefore(rows, t, n) < limit then DueBefore(rows, t, n) else limit
    ensures forall k :: 0 <= k < n && Picks(rows, t, limit, k) ==>
      DueBefore(rows, t, k) < |Select(rows, t, limit, n)| && Select(rows, t, limit, n)[DueBefore(rows, t, k)] == rows[k]
    ensures forall r :: r in Select(rows, t, limit, n) ==>
      exists k :: 0 <= k < n && rows[k] == r && Picks(rows, t, limit, k)
  {
    if n > 0 {
      SelectIsPicks(rows, t, limit, n - 1);
      forall k | 0 <= k < n && Picks(rows, t, limit, k)
        ensures DueBefore(rows, t, k) < |Select(rows, t, limit, n)|
        ensures Select(rows, t, limit, n)[DueBefore(rows, t, k)] == rows[k]
      {
        DueBeforeMonotone(rows, t, k, n - 1);
      }
      forall r | r in Select(rows, t, limit, n)
        ensures exists k :: 0 <= k < n && rows[k] == r && Picks(rows, t, limit, k)
      {
        if r in Select(rows, t, limit, n - 1) {
          var k :| 0 <= k < n - 1 && rows[k] == r && Picks(rows, t, limit, k);
        } else {
          assert rows[n - 1] == r && Picks(rows, t, limit, n - 1);
        }
      }
    }
  }

  /** By id: a row is updated by the claim loop exactly when the claim picked it. */
  lemma SelectedIds(rows: seq<Inbound>, t: Second, limit: nat, k: nat)
    requires UniqueIds(rows) && k < |rows|
    ensures rows[k].id in Ids(Select(rows, t, limit, |rows|)) <==> Picks(rows, t, limit, k)
  {
    var picked := Select(rows, t, limit, |rows|);
    SelectIsPicks(rows, t, limit, |rows|);
    if rows[k].id in Ids(picked) {
      var r :| r in picked && r.id == rows[k].id;
      var j :| 0 <= j < |rows| && rows[j] == r && Picks(rows, t, limit, j);
      assert j == k;
    }
    if Picks(rows, t, limit, k) {
      assert picked[DueBefore(rows, t, k)] == rows[k];
    }
  }

  /** A claim hands a message out exactly when it is among the messages it returns. */
  lemma HandsOutIff(p: Policy, q: Queue, e: Event, k: nat)
    requires Inv(p, q) && e.Claim? && k < |q.rows|
    ensures HandsOut(p, q, e, k) <==>
            q.rows[k].id in Ids(Select(Settled(p, e.clock, q.rows), e.clock.select, e.limit, |q.rows|))
  {
    SelectedIds(Settled(p, e.clock, q.rows), e.clock.select, e.limit, k);
  }

  lemma {:induction false} SelectHasUniqueIds(rows: seq<Inbound>, t: Second, limit: nat, n: nat)
    requires UniqueIds(rows) && n <= |rows|
    ensures UniqueIds(Select(rows, t, limit, n))
  {
    if n > 0 {
      SelectHasUniqueIds(rows, t, limit, n - 1);
      var before := Select(rows, t, limit, n - 1);
      SelectIsPicks(rows, t, limit, n - 1);
      forall i | 0 <= i < |before| ensures before[i].id != rows[n - 1].id {
        assert before[i] in before;
        var k :| 0 <= k < n - 1 && rows[k] == before[i] && Picks(rows, t, limit, k);
      }
    }
  }

  // ---------------------------------------------------------------- dead letters and their notice

  /** The claim `e` moves message `k` from processing to failed. */
  predicate Dies(p: Policy, q: Queue, e: Event, k: nat) {
    && e.Claim?
    && k < |q.rows|
    && q.rows[k].status.Processing?
    && Next(p, q, e).rows[k].status.Failed?
  }

  /** The outbound rows a step writes. */
  function Posted(p: Policy, q: Queue, e: Event): seq<Outbound> {
    match e
    case Claim(c, limit, lost) => Notices(Dead(p, Recovered(p, c, q.rows), c.listDead), lost)
    case WriteOutbound(message) => [message]
    case _ => []
  }

  /** The last lease of row `r` runs out between the query that lists the dead and the update that buries them. */
  predicate InGap(p: Policy, c: Clock, r: Inbound) {
    && r.status.Processing?
    && r.tries >= p.Tries()
    && c.listDead < r.statusChanged + p.Lease() <= c.bury
  }

  /** `m` tells the sender of `r`, in reply to it and on its own channel, platform and thread, that
      the request was given up. */
  predicate Apologises(r: Inbound, m: Outbound) {
    && m.inReplyTo == Some(r.id) && m.kind == "chat" && m.body.GaveUp?
    && m.to.channel == r.from.channel && m.to.platform == r.from.platform && m.to.thread == r.from.thread
  }

  ghost predicate Apologised(r: Inbound, ms: seq<Outbound>) {
    exists m :: m in ms && Apologises(r, m)
  }

  lemma NoticeApologises(r: Inbound, ms: seq<Outbound>)
    ensures Apologises(r, NoticeFor(r))
    ensures Apologised(r, ms) <==> NoticeFor(r) in ms
  {
    forall m | Apologises(r, m) ensures m == NoticeFor(r) {
    }
  }

  lemma {:induction false} NoticesAreForTheDead(dead: seq<Inbound>, lost: set<Id>, m: Outbound)
    ensures m in Notices(dead, lost) <==> exists i :: 0 <= i < |dead| && dead[i].id !in lost && NoticeFor(dead[i]) == m
  {
    if dead != [] {
      var last := |dead| - 1;
      NoticesAreForTheDead(dead[..last], lost, m);
      if m in Notices(dead[..last], lost) {
        var i :| 0 <= i < last && dead[..last][i].id !in lost && NoticeFor(dead[..last][i]) == m;
        assert dead[i].id !in lost && NoticeFor(dead[i]) == m;
      }
      if i :| 0 <= i < |dead| && dead[i].id !in lost && NoticeFor(dead[i]) == m {
        if i < last {
          assert dead[..last][i].id !in lost && NoticeFor(dead[..last][i]) == m;
        }
      }
    }
  }

  lemma {:induction false} DeadAreExhausted(p: Policy, rows: seq<Inbound>, t: Second, r: Inbound)
    ensures r in Dead(p, rows, t) <==> r in rows && Exhausted(p, r, t)
  {
    if rows != [] {
      DeadAreExhausted(p, rows[1..], t, r);
      assert r in rows <==> r == rows[0] || r in rows[1..];
    }
  }

  /**
   * A dead-lettered message goes unanswered exactly when its lease runs out between the two
   * clock readings, or the notice itself could not be written.
   */
  lemma UnansweredIff(p: Policy, q: Queue, e: Event, k: nat)
    requires Inv(p, q) && e.Claim? && e.clock.Ordered() && k < |q.rows|
    ensures Dies(p, q, e, k) && !Apologised(q.rows[k], Posted(p, q, e))
            <==> Dies(p, q, e, k) && (InGap(p, e.clock, q.rows[k]) || q.rows[k].id in e.lost)
    ensures InGap(p, e.clock, q.rows[k]) ==> Dies(p, q, e, k)
  {
    NoticeApologises(q.rows[k], Posted(p, q, e));
    NoNoticeIff(p, q, e, k);
  }

  lemma NoNoticeIff(p: Policy, q: Queue, e: Event, k: nat)
    requires Inv(p, q) && e.Claim? && e.clock.Ordered() && k < |q.rows|
    ensures Dies(p, q, e, k) && NoticeFor(q.rows[k]) !in Posted(p, q, e)
            <==> Dies(p, q, e, k) && (InGap(p, e.clock, q.rows[k]) || q.rows[k].id in e.lost)
    ensures InGap(p, e.clock, q.rows[k]) ==> Dies(p, q, e, k)
  {
    var live := Recovered(p, e.clock, q.rows);
    DiesIff(p, q, e, k);
    assert UniqueIds(live);
    NoticePostedIff(p, live, e.clock.listDead, e.lost, k);
  }

  /** A claim buries exactly what is exhausted when it does so. */
  lemma DiesIff(p: Policy, q: Queue, e: Event, k: nat)
    requires e.Claim? && k < |q.rows|
    ensures Dies(p, q, e, k) <==> Exhausted(p, q.rows[k], e.clock.bury)
  {
  }

  lemma NoticePostedIff(p: Policy, rows: seq<Inbound>, t: Second, lost: set<Id>, k: nat)
    requires UniqueIds(rows) && k < |rows|
    ensures NoticeFor(rows[k]) in Notices(Dead(p, rows, t), lost) <==> Exhausted(p, rows[k], t) && rows[k].id !in lost
  {
    var dead := Dead(p, rows, t);
    NoticesAreForTheDead(dead, lost, NoticeFor(rows[k]));
    DeadAreExhausted(p, rows, t, rows[k]);
    if NoticeFor(rows[k]) in Notices(dead, lost) {
      var i :| 0 <= i < |dead| && dead[i].id !in lost && NoticeFor(dead[i]) == NoticeFor(rows[k]);
      DeadAreExhausted(p, rows, t, dead[i]);
      var j :| 0 <= j < |rows| && rows[j] == dead[i];
      assert rows[j].id == rows[k].id;
    }
    if Exhausted(p, rows[k], t) {
      var i :| 0 <= i < |dead| && dead[i] == rows[k];
    }
  }

  /** What a claim writes is an apology, and only to the sender of a message it buries. */
  lemma OnlyTheDeadAreAnswered(p: Policy, q: Queue, e: Event, m: Outbound) returns (k: nat)
    requires Inv(p, q) && e.Claim? && e.clock.Ordered() && m in Posted(p, q, e)
    ensures Next(p, q, e).outbound == q.outbound + Posted(p, q, e)
    ensures k < |q.rows| && Dies(p, q, e, k) && Apologises(q.rows[k], m)
  {
    var c := e.clock;
    var live := Recovered(p, c, q.rows);
    var dead := Dead(p, live, c.listDead);
    NoticesAreForTheDead(dead, e.lost, m);
    var i :| 0 <= i < |dead| && dead[i].id !in e.lost && NoticeFor(dead[i]) == m;
    DeadAreExhausted(p, live, c.listDead, dead[i]);
    k :| 0 <= k < |live| && live[k] == dead[i];
    assert RowOk(p, q.rows[k]);
  }

  /** Every failed message that used up its tries has been answered at its own address. */
  ghost predicate Answered(p: Policy, q: Queue) {
    forall k :: 0 <= k < |q.rows| && q.rows[k].status.Failed? && q.rows[k].tries >= p.Tries() ==>
      Apologised(q.rows[k], q.outbound)
  }

  /** No claim of the run loses a notice, to the clock or to a failed write. */
  ghost predicate NothingSilent(p: Policy, h: History)
    requires |h.states| == |h.events| + 1
  {
    forall i, k :: 0 <= i < |h.events| && h.events[i].Claim? && 0 <= k < |h.states[i].rows| ==>
      !InGap(p, h.events[i].clock, h.states[i].rows[k]) && !(h.states[i].rows[k].id in h.events[i].lost)
  }

  lemma StepKeepsAnswered(p: Policy, q: Queue, e: Event)
    requires Inv(p, q) && Answered(p, q)
    requires e.Claim? ==> e.clock.Ordered()
    requires e.Claim? ==> forall k :: 0 <= k < |q.rows| ==> !InGap(p, e.clock, q.rows[k]) && !(q.rows[k].id in e.lost)
    ensures Answered(p, Next(p, q, e))
  {
    var after := Next(p, q, e);
    StepKeepsMessages(p, q, e);
    assert after.outbound == q.outbound + Posted(p, q, e);
    forall k | 0 <= k < |after.rows| && after.rows[k].status.Failed? && after.rows[k].tries >= p.Tries()
      ensures Apologised(after.rows[k], after.outbound)
    {
      if k < |q.rows| {
        assert SameMessage(q.rows[k], after.rows[k]);
        assert RowOk(p, q.rows[k]);
        if e.Claim? && !q.rows[k].status.Failed? {
          UnansweredIff(p, q, e, k);
          StillApologised(q.rows[k], after.rows[k], Posted(p, q, e), after.outbound);
        } else {
          StillApologised(q.rows[k], after.rows[k], q.outbound, after.outbound);
        }
      }
    }
  }

  lemma StillApologised(r: Inbound, r': Inbound, ms: seq<Outbound>, more: seq<Outbound>)
    requires Apologised(r, ms) && SameMessage(r, r') && forall m :: m in ms ==> m in more
    ensures Apologised(r', more)
  {
    var m :| m in ms && Apologises(r, m);
    assert Apologises(r', m);
  }

  /** A failed request with its tries used up is never silently dropped, unless a claim was silent. */
  lemma {:induction false} RunKeepsAnswered(p: Policy, h: History, n: nat)
    requires Runs(p, h) && n <= |h.events| && NothingSilent(p, h)
    ensures Answered(p, h.states[n])
  {
    if n > 0 {
      RunKeepsAnswered(p, h, n - 1);
      RunKeepsInv(p, h, n - 1);
      assert Steps(p, h, n - 1);
      StepKeepsAnswered(p, h.states[n - 1], h.events[n - 1]);
    }
  }

  // ---------------------------------------------------------------- runs of one message

  /** What a claim does to a table of one row. */
  function ClaimedAlone(p: Policy, c: Clock, r: Inbound): Inbound {
    var settled := SettleRow(p, c, r);
    if Due(settled, c.select) then HandRow(settled, c.stamp) else settled
  }

  lemma ClaimAlone(p: Policy, r: Inbound, cancels: set<Id>, c: Clock)
    ensures var q := Next(p, Queue([r], cancels, []), Claim(c, 1, {}));
            && q.rows == [ClaimedAlone(p, c, r)] && q.cancels == cancels
            && (!Exhausted(p, r, c.listDead) ==> q.outbound == [])
    ensures Due(SettleRow(p, c, r), c.select) ==> HandsOut(p, Queue([r], cancels, []), Claim(c, 1, {}), 0)
  {
    assert Settled(p, c, [r]) == [SettleRow(p, c, r)];
    assert DueBefore([SettleRow(p, c, r)], c.select, 0) == 0;
    var live := Recovered(p, c, [r]);
    assert live[1..] == [];
    assert Dead(p, live, c.listDead) == if Exhausted(p, live[0], c.listDead) then [live[0]] else [];
  }

  const SAMPLE_ROW := Inbound("m", 1, "chat", Address("telegram", "chat-1", None), "hi", Pending, 0, None, 0)

  const SAMPLE_INSERT := Insert("m", "chat", Address("telegram", "chat-1", None), "hi", 0)

  lemma InsertAlone(p: Policy)
    ensures Next(p, NO_ROWS, SAMPLE_INSERT) == Queue([SAMPLE_ROW], {}, [])
  {
  }

  /** A clock that stands still. */
  function Still(t: Second): Clock {
    Clock(t, t, t, t, t, t)
  }

  function Last(h: History): Queue
    requires h.states != []
  {
    h.states[|h.states| - 1]
  }

  function Extended(p: Policy, h: History, e: Event): History
    requires h.states != []
  {
    History(h.events + [e], h.states + [Next(p, Last(h), e)])
  }

  lemma ExtendedRuns(p: Policy, h: History, e: Event)
    requires Runs(p, h) && Ordered(e)
    ensures Runs(p, Extended(p, h, e))
  {
    var longer := Extended(p, h, e);
    forall i | 0 <= i < |longer.events| ensures Steps(p, longer, i) {
      if i < |h.events| {
        assert Steps(p, h, i);
      }
    }
  }

  /** The event is no completion, no requeue, and no claim that loses a notice. */
  predicate Plain(e: Event) {
    !e.Complete? && !e.Requeue? && (e.Claim? ==> e.lost == {})
  }

  /** `longer` goes on from `h` with plain events. */
  ghost predicate GoesOn(p: Policy, h: History, longer: History) {
    && Runs(p, longer) && h.events <= longer.events && h.states <= longer.states
    && forall i :: |h.events| <= i < |longer.events| ==> Plain(longer.events[i])
  }

  /** Nobody answers message `r`, in flight and alone, and it goes out once more. */
  lemma OneMoreHandOut(p: Policy, h: History, r: Inbound, cancels: set<Id>) returns (longer: History, r': Inbound)
    requires Runs(p, h) && Last(h) == Queue([r], cancels, []) && r.status.Processing? && r.tries < p.Tries()
    ensures GoesOn(p, h, longer) && |longer.events| > |h.events|
    ensures Last(longer) == Queue([r'], cancels, []) && r'.status.Processing?
    ensures r'.tries == r.tries + 1 && r'.id == r.id
    ensures HandsOut(p, longer.states[|longer.events| - 1], longer.events[|longer.events| - 1], 0)
  {
    var t := r.statusChanged + p.Lease();
    var e := Claim(Still(t), 1, {});
    longer, r' := Extended(p, h, e), ClaimedAlone(p, Still(t), r);
    ExtendedRuns(p, h, e);
    ClaimAlone(p, r, cancels, Still(t));
    if p.Backoff() > 0 {
      var waiting, halfway := r', longer;
      var f := Claim(Still(t + p.Backoff()), 1, {});
      longer, r' := Extended(p, halfway, f), ClaimedAlone(p, f.clock, waiting);
      ExtendedRuns(p, halfway, f);
      ClaimAlone(p, waiting, cancels, f.clock);
    }
  }

  lemma {:induction false} AllHandOuts(p: Policy, h: History, r: Inbound) returns (longer: History, r': Inbound)
    requires Runs(p, h) && Last(h) == Queue([r], {}, []) && r.status.Processing? && r.tries <= p.Tries()
    ensures GoesOn(p, h, longer) && Last(longer) == Queue([r'], {}, [])
    ensures r'.status.Processing? && r'.tries == p.Tries()
    decreases p.Tries() - r.tries
  {
    longer, r' := h, r;
    if r.tries < p.Tries() {
      var next, out := OneMoreHandOut(p, h, r, {});
      longer, r' := AllHandOuts(p, next, out);
    }
  }

  /** One message, inserted and handed out for the first time. */
  lemma FirstHandOut(p: Policy) returns (h: History, r: Inbound)
    ensures Runs(p, h) && Last(h) == Queue([r], {}, []) && r.status.Processing? && r.tries == 1 && r.id == "m"
    ensures |h.events| == 2 && Plain(h.events[0]) && Plain(h.events[1]) && HandsOut(p, h.states[1], h.events[1], 0)
  {
    h := History([], [NO_ROWS]);
    InsertAlone(p);
    ExtendedRuns(p, h, SAMPLE_INSERT);
    h := Extended(p, h, SAMPLE_INSERT);
    ClaimAlone(p, SAMPLE_ROW, {}, Still(0));
    ExtendedRuns(p, h, Claim(Still(0), 1, {}));
    h, r := Extended(p, h, Claim(Still(0), 1, {})), ClaimedAlone(p, Still(0), SAMPLE_ROW);
  }

  /** The gap is real under every policy with a lease: a message that nobody ever answers, and a last
      claim whose clock ticks between its two readings. */
  lemma GapLosesTheAnswer(p: Policy) returns (h: History)
    requires p.Lease() > 0
    ensures Runs(p, h) && forall i :: 0 <= i < |h.events| ==> Plain(h.events[i])
    ensures |Last(h).rows| == 1 && Last(h).rows[0].status.Failed? && Last(h).rows[0].tries == p.Tries()
    ensures Last(h).outbound == []
  {
    var first, r := FirstHandOut(p);
    var longer, out := AllHandOuts(p, first, r);
    var t := out.statusChanged + p.Lease();
    var c := Clock(t - 1, t - 1, t - 1, t, t, t);
    ClaimAlone(p, out, {}, c);
    ExtendedRuns(p, longer, Claim(c, 1, {}));
    h := Extended(p, longer, Claim(c, 1, {}));
  }

  // ---------------------------------------------------------------- cancel flags

  /** Event `i` flags message `k`, and no later event before `n` completes it. */
  ghost predicate FlaggedBy(p: Policy, h: History, i: nat, n: nat, k: nat)
    requires |h.states| == |h.events| + 1 && n <= |h.events|
  {
    && i < n
    && h.events[i].RequestCancel?
    && k < |h.states[i].rows|
    && h.states[i].rows[k].status.Processing?
    && forall j :: i < j < n ==> !Completes(h.states[j], h.events[j], k)
  }

  ghost predicate Flagged(p: Policy, h: History, n: nat, k: nat)
    requires |h.states| == |h.events| + 1 && n <= |h.events|
  {
    exists i: nat :: FlaggedBy(p, h, i, n, k)
  }

  predicate Completes(q: Queue, e: Event, k: nat) {
    e.Complete? && k < |q.rows| && q.rows[k].id in e.ids
  }

  lemma StepChangesFlag(p: Policy, q: Queue, e: Event, k: nat)
    requires Inv(p, q) && k < |q.rows|
    ensures Next(p, q, e).rows[k].id == q.rows[k].id
    ensures q.rows[k].id in Next(p, q, e).cancels
            <==>
            !Completes(q, e, k) &&
            (q.rows[k].id in q.cancels || (e.RequestCancel? && q.rows[k].status.Processing?))
  {
    FlagsAreInFlight(q);
  }

  lemma NewRowHasNoFlag(p: Policy, q: Queue, e: Event, k: nat)
    requires Inv(p, q) && k >= |q.rows| && k < |Next(p, q, e).rows|
    ensures Next(p, q, e).rows[k].id !in Next(p, q, e).cancels
  {
  }

  /**
   * A message is flagged exactly when some cancel request met it in flight and nobody completed it
   * since: the flag ends with a completion, not with the turn it was meant for.
   */
  lemma {:induction false} FlagIff(p: Policy, h: History, n: nat, k: nat)
    requires Runs(p, h) && n <= |h.events| && k < |h.states[n].rows|
    ensures h.states[n].rows[k].id in h.states[n].cancels <==> Flagged(p, h, n, k)
  {
    if n > 0 {
      var q, e := h.states[n - 1], h.events[n - 1];
      assert Steps(p, h, n - 1);
      RunKeepsInv(p, h, n - 1);
      StepKeepsMessages(p, q, e);
      if k >= |q.rows| {
        NewRowHasNoFlag(p, q, e, k);
        forall i: nat ensures !FlaggedBy(p, h, i, n, k) {
          if i < n {
            RowsOnlyGrow(p, h, i, n - 1);
          }
        }
      } else {
        FlagIff(p, h, n - 1, k);
        StepChangesFlag(p, q, e, k);
        FlaggedByStep(p, h, n, k);
      }
    }
  }

  lemma {:induction false} RowsOnlyGrow(p: Policy, h: History, i: nat, j: nat)
    requires Runs(p, h) && i <= j <= |h.events|
    ensures |h.states[i].rows| <= |h.states[j].rows|
    decreases j
  {
    if i < j {
      RowsOnlyGrow(p, h, i, j - 1);
      assert Steps(p, h, j - 1);
      StepKeepsMessages(p, h.states[j - 1], h.events[j - 1]);
    }
  }

  lemma FlaggedByStep(p: Policy, h: History, n: nat, k: nat)
    requires Runs(p, h) && 0 < n <= |h.events| && k < |h.states[n - 1].rows|
    ensures Flagged(p, h, n, k) <==>
            !Completes(h.states[n - 1], h.events[n - 1], k)
            && (Flagged(p, h, n - 1, k) ||
                (h.events[n - 1].RequestCancel? && h.states[n - 1].rows[k].status.Processing?))
  {
    var last := n - 1;
    if Flagged(p, h, n, k) {
      var i: nat :| FlaggedBy(p, h, i, n, k);
      if i < last {
        assert FlaggedBy(p, h, i, last, k);
      }
    }
    if !Completes(h.states[last], h.events[last], k) {
      if Flagged(p, h, last, k) {
        var i: nat :| FlaggedBy(p, h, i, last, k);
        assert FlaggedBy(p, h, i, n, k);
      }
      if h.events[last].RequestCancel? && h.states[last].rows[k].status.Processing? {
        assert FlaggedBy(p, h, last, n, k);
      }
    }
  }

  /** A hand-out starts with the flag of an earlier one exactly when a cancel request met the message
      in flight before and nobody completed it since. */
  lemma HandOutStartsFlaggedIff(p: Policy, h: History, n: nat, k: nat)
    requires Runs(p, h) && n < |h.events| && HandsOut(p, h.states[n], h.events[n], k)
    ensures k < |h.states[n + 1].rows|
    ensures h.states[n + 1].rows[k].id in h.states[n + 1].cancels <==> Flagged(p, h, n, k)
  {
    FlagIff(p, h, n, k);
    assert Steps(p, h, n);
    RunKeepsInv(p, h, n);
    StepChangesFlag(p, h.states[n], h.events[n], k);
  }

  /** It does happen under every policy that allows a second try: insert, claim, cancel, and the
      next hand-out is cancelled before it starts. */
  lemma FlagOutlivesItsTurn(p: Policy) returns (h: History)
    requires p.Tries() > 1
    ensures Runs(p, h) && |h.events| > 3 && forall i :: 0 <= i < |h.events| ==> Plain(h.events[i])
    ensures HandsOut(p, h.states[1], h.events[1], 0) && h.events[2].RequestCancel?
    ensures HandsOut(p, h.states[|h.events| - 1], h.events[|h.events| - 1], 0)
    ensures |Last(h).rows| == 1 && Last(h).rows[0].id in Last(h).cancels
  {
    var first, r := FirstHandOut(p);
    CancelAlone(p, r);
    ExtendedRuns(p, first, RequestCancel);
    var cancelled := Extended(p, first, RequestCancel);
    assert cancelled.events[..2] == first.events && cancelled.states[..3] == first.states;
    var longer, r' := OneMoreHandOut(p, cancelled, r, {r.id});
    h := longer;
  }

  lemma CancelAlone(p: Policy, r: Inbound)
    requires r.status.Processing?
    ensures Next(p, Queue([r], {}, []), RequestCancel) == Queue([r], {r.id}, [])
  {
    assert r in [r];
    assert InFlight([r]) == {r.id};
  }

  // ---------------------------------------------------------------- no message is stuck

  /** Claims and recoveries a message can still go through before it is settled. */
  function Work(p: Policy, r: Inbound): nat
    requires RowOk(p, r)
  {
    match r.status
    case Pending => 2 * (p.Tries() - r.tries)
    case Processing => 2 * (p.Tries() - r.tries) + 1
    case _ => 0
  }

  function TotalWork(p: Policy, rows: seq<Inbound>): nat
    requires RowsOk(p, rows)
  {
    if rows == [] then 0 else Work(p, rows[0]) + TotalWork(p, rows[1..])
  }

  lemma {:induction false} TotalWorkDrops(p: Policy, a: seq<Inbound>, b: seq<Inbound>)
    requires RowsOk(p, a) && RowsOk(p, b) && |a| == |b|
    requires forall k :: 0 <= k < |a| ==> Work(p, b[k]) <= Work(p, a[k])
    ensures TotalWork(p, b) <= TotalWork(p, a)
    ensures (exists k :: 0 <= k < |a| && Work(p, b[k]) < Work(p, a[k])) ==> TotalWork(p, b) < TotalWork(p, a)
  {
    if a != [] {
      TotalWorkDrops(p, a[1..], b[1..]);
      if k :| 0 <= k < |a| && Work(p, b[k]) < Work(p, a[k]) {
        if k > 0 {
          assert Work(p, b[1..][k - 1]) < Work(p, a[1..][k - 1]);
        }
      }
    }
  }

  /** No table takes more well-spaced claims than twice the tries of all its messages. */
  lemma {:induction false} WorkIsBounded(p: Policy, rows: seq<Inbound>)
    requires RowsOk(p, rows)
    ensures TotalWork(p, rows) <= |rows| * (2 * p.Tries())
  {
    if rows != [] {
      WorkIsBounded(p, rows[1..]);
      assert RowOk(p, rows[0]);
      assert |rows| * (2 * p.Tries()) == 2 * p.Tries() + |rows[1..]| * (2 * p.Tries());
    }
  }

  lemma {:induction false} NoWorkMeansSettled(p: Policy, rows: seq<Inbound>)
    requires RowsOk(p, rows) && TotalWork(p, rows) == 0
    ensures forall k :: 0 <= k < |rows| ==> rows[k].status.Completed? || rows[k].status.Failed?
  {
    if rows != [] {
      NoWorkMeansSettled(p, rows[1..]);
      assert forall k :: 1 <= k < |rows| ==> rows[k] == rows[1..][k - 1];
    }
  }

  /** No lease and no back-off in the table reaches past lease + back-off after second `t`. */
  ghost predicate StampedBy(p: Policy, rows: seq<Inbound>, t: Second) {
    forall k :: 0 <= k < |rows| ==> RowStampedBy(p, rows[k], t)
  }

  predicate RowStampedBy(p: Policy, r: Inbound, t: Second) {
    && (r.status.Processing? ==> r.statusChanged <= t)
    && (r.status.Pending? && r.processAfter.Some? ==> r.processAfter.value <= t + p.Backoff())
  }

  /** A step of a draining run: nothing new arrives, and a claim comes lease + back-off after second `t`. */
  predicate Drains(p: Policy, e: Event, t: Second) {
    && !e.Insert?
    && !e.Requeue?
    && (e.Claim? ==> e.clock.Ordered() && e.limit > 0 && t + p.Lease() + p.Backoff() <= e.clock.recover)
  }

  /** A draining run from second `t` on, each claim lease + back-off after the stamp of the one before. */
  predicate Patient(p: Policy, t: Second, es: seq<Event>)
    decreases es
  {
    es == [] || (Drains(p, es[0], t) && Patient(p, if es[0].Claim? then es[0].clock.stamp else t, es[1..]))
  }

  function Claims(es: seq<Event>): nat {
    if es == [] then 0 else (if es[0].Claim? then 1 else 0) + Claims(es[1..])
  }

  function Drained(p: Policy, q: Queue, es: seq<Event>): Queue
    decreases es
  {
    if es == [] then q else Drained(p, Next(p, q, es[0]), es[1..])
  }

  lemma DrainRow(p: Policy, q: Queue, e: Event, t: Second, k: nat)
    requires Inv(p, q) && k < |q.rows| && Drains(p, e, t)
    requires RowOk(p, q.rows[k]) && RowStampedBy(p, q.rows[k], t)
    ensures k < |Next(p, q, e).rows| && RowOk(p, Next(p, q, e).rows[k])
    ensures Work(p, Next(p, q, e).rows[k]) <= Work(p, q.rows[k])
    ensures RowStampedBy(p, Next(p, q, e).rows[k], if e.Claim? then e.clock.stamp else t)
    ensures e.Claim? && (q.rows[k].status.Processing? || HandsOut(p, q, e, k)) ==>
              Work(p, Next(p, q, e).rows[k]) < Work(p, q.rows[k])
  {
    StepKeepsInv(p, q, e);
    assert RowOk(p, Next(p, q, e).rows[k]);
  }

  lemma {:induction false} FirstDueIsPicked(rows: seq<Inbound>, t: Second, limit: nat, k: nat) returns (first: nat)
    requires k < |rows| && Due(rows[k], t) && limit > 0
    ensures first < |rows| && Picks(rows, t, limit, first)
    decreases k
  {
    if DueBefore(rows, t, k) == 0 {
      first := k;
    } else {
      var j := LastDueBefore(rows, t, k);
      first := FirstDueIsPicked(rows, t, limit, j);
    }
  }

  lemma {:induction false} LastDueBefore(rows: seq<Inbound>, t: Second, k: nat) returns (j: nat)
    requires k <= |rows| && DueBefore(rows, t, k) > 0
    ensures j < k && Due(rows[j], t)
  {
    if Due(rows[k - 1], t) {
      j := k - 1;
    } else {
      j := LastDueBefore(rows, t, k - 1);
    }
  }

  /** A patient claim moves some message on as long as one is neither completed nor failed. */
  lemma PatientClaimProgresses(p: Policy, q: Queue, e: Event, t: Second)
    requires Inv(p, q) && StampedBy(p, q.rows, t) && Drains(p, e, t)
    ensures Inv(p, Next(p, q, e)) && RowsOk(p, q.rows) && RowsOk(p, Next(p, q, e).rows)
    ensures StampedBy(p, Next(p, q, e).rows, if e.Claim? then e.clock.stamp else t)
    ensures TotalWork(p, Next(p, q, e).rows) <= TotalWork(p, q.rows)
    ensures e.Claim? && TotalWork(p, q.rows) > 0 ==> TotalWork(p, Next(p, q, e).rows) < TotalWork(p, q.rows)
  {
    StepKeepsInv(p, q, e);
    var after := Next(p, q, e).rows;
    StepKeepsMessages(p, q, e);
    assert |after| == |q.rows|;
    forall k | 0 <= k < |after|
      ensures Work(p, after[k]) <= Work(p, q.rows[k])
      ensures RowStampedBy(p, after[k], if e.Claim? then e.clock.stamp else t)
    {
      DrainRow(p, q, e, t, k);
    }
    TotalWorkDrops(p, q.rows, after);
    if e.Claim? && TotalWork(p, q.rows) > 0 {
      var k := BusyRow(p, q.rows);
      if q.rows[k].status.Processing? {
        DrainRow(p, q, e, t, k);
      } else {
        var settled := Settled(p, e.clock, q.rows);
        assert RowStampedBy(p, q.rows[k], t) && settled[k] == q.rows[k];
        var first := FirstDueIsPicked(settled, e.clock.select, e.limit, k);
        DrainRow(p, q, e, t, first);
      }
    }
  }

  lemma {:induction false} BusyRow(p: Policy, rows: seq<Inbound>) returns (k: nat)
    requires RowsOk(p, rows) && TotalWork(p, rows) > 0
    ensures k < |rows| && (rows[k].status.Pending? || rows[k].status.Processing?)
  {
    if Work(p, rows[0]) > 0 {
      k := 0;
    } else {
      k := BusyRow(p, rows[1..]);
      k := k + 1;
    }
  }

  /** Every table is stamped by some second, so waiting long enough is always possible. */
  lemma {:induction false} StampExists(p: Policy, rows: seq<Inbound>) returns (t: Second)
    ensures StampedBy(p, rows, t)
  {
    if rows == [] {
      t := 0;
    } else {
      var last := rows[|rows| - 1];
      var own := last.statusChanged;
      if last.processAfter.Some? && last.processAfter.value > own {
        own := last.processAfter.value;
      }
      var front := StampExists(p, rows[..|rows| - 1]);
      t := if own > front then own else front;
      forall k | 0 <= k < |rows| ensures RowStampedBy(p, rows[k], t) {
        assert k < |rows| - 1 ==> RowStampedBy(p, rows[..|rows| - 1][k], front);
      }
    }
  }

  /**
   * No message is stuck: once nothing new arrives, as many well-spaced claims as there is work left
   * settle every message, whatever the workers do or fail to do in between.
   */
  lemma {:induction false} QueueDrains(p: Policy, q: Queue, es: seq<Event>, t: Second)
    requires Inv(p, q) && RowsOk(p, q.rows) && StampedBy(p, q.rows, t) && Patient(p, t, es)
    requires Claims(es) >= TotalWork(p, q.rows)
    ensures forall r :: r in Drained(p, q, es).rows ==> r.status.Completed? || r.status.Failed?
    decreases |es|
  {
    if es == [] {
      NoWorkMeansSettled(p, q.rows);
    } else {
      PatientClaimProgresses(p, q, es[0], t);
      QueueDrains(p, Next(p, q, es[0]), es[1..], if es[0].Claim? then es[0].clock.stamp else t);
    }
  }

  // ---------------------------------------------------------------- the database

  class SessionDb {
    var rows: seq<Inbound>
    var cancels: set<Id>
    var outbound: seq<Outbound>

    function State(): Queue
      reads this
    {
      Queue(rows, cancels, outbound)
    }

    constructor ()
      ensures State() == NO_ROWS
    {
      rows, cancels, outbound := [], {}, [];
    }

    /** Fails, changing nothing, when the primary key is taken. */
    method InsertInbound(p: Policy, id: Id, kind: string, from: Address, content: string, now: Second)
      returns (ok: bool)
      modifies this
      ensures State() == Next(p, old(State()), Insert(id, kind, from, content, now))
      ensures ok <==> forall r :: r in old(rows) ==> r.id != id
      ensures !ok ==> rows == old(rows)
      ensures ok ==> |rows| == |old(rows)| + 1 && rows[..|old(rows)|] == old(rows)
      ensures ok ==>
        var r := rows[|old(rows)|];
        && r.id == id && r.kind == kind && r.from == from && r.content == content && r.statusChanged == now
        && r.status.Pending? && r.tries == 0 && r.processAfter.None?
    {
      ok := id !in Ids(rows);
      if ok {
        rows := rows + [Inbound(id, MaxSeq(rows) + 1, kind, from, content, Pending, 0, None, now)];
      }
    }

    /** Expired leases with tries left go back with back-off, expired ones without fail; what the
        query in between sees as dead is returned. */
    method RecoverStuck(p: Policy, c: Clock) returns (dead: seq<Inbound>)
      modifies this`rows
      ensures rows == Settled(p, c, old(rows))
      ensures dead == Dead(p, Recovered(p, c, old(rows)), c.listDead)
      ensures forall k :: 0 <= k < |rows| ==>
        var r := old(rows)[k];
        if r.status.Processing? && r.tries < p.Tries() && r.statusChanged + p.Lease() <= c.recover
        then rows[k] == r.(status := Pending, statusChanged := c.now, processAfter := Some(c.recover + p.Backoff()))
        else if r.status.Processing? && r.tries >= p.Tries() && r.statusChanged + p.Lease() <= c.bury
        then rows[k] == r.(status := Failed, statusChanged := c.now)
        else rows[k] == r
      ensures forall r :: r in dead <==>
        r in old(rows) && r.status.Processing? && r.tries >= p.Tries() && r.statusChanged + p.Lease() <= c.listDead
    {
      ListedDead(p, c, rows);
      rows := Updated(r => RecoverRow(p, c, r), rows);
      dead := Dead(p, rows, c.listDead);
      rows := Updated(r => BuryRow(p, c, r), rows);
    }

    /** The answers to the dead, one after the other; a failed write is skipped. */
    method NotifyDead(dead: seq<Inbound>, lost: set<Id>)
      modifies this`outbound
      ensures outbound == old(outbound) + Notices(dead, lost)
    {
      for i := 0 to |dead|
        invariant outbound == old(outbound) + Notices(dead[..i], lost)
      {
        assert dead[..i + 1][..i] == dead[..i];
        if dead[i].id !in lost {
          outbound := outbound + [NoticeFor(dead[i])];
        }
      }
      assert dead[..|dead|] == dead;
    }

    /** Recover, then answer the dead. */
    method SettleLeases(p: Policy, c: Clock, lost: set<Id>)
      modifies this`rows, this`outbound
      ensures rows == Settled(p, c, old(rows))
      ensures outbound == old(outbound) + Notices(Dead(p, Recovered(p, c, old(rows)), c.listDead), lost)
    {
      var dead := RecoverStuck(p, c);
      NotifyDead(dead, lost);
    }

    /** One guarded-by-id update per claimed message: it is in flight, with one more try, since `t`. */
    method StampClaimed(messages: seq<Inbound>, t: Second)
      requires UniqueIds(rows) && UniqueIds(messages)
      modifies this`rows
      ensures |rows| == |old(rows)|
      ensures forall k :: 0 <= k < |rows| && rows[k] != old(rows)[k] ==>
        rows[k] == old(rows)[k].(status := Processing, tries := old(rows)[k].tries + 1, statusChanged := t)
      ensures forall k :: 0 <= k < |rows| ==>
        rows[k] == if old(rows)[k].id in Ids(messages) then HandRow(old(rows)[k], t) else old(rows)[k]
    {
      ghost var start := rows;
      for i := 0 to |messages|
        invariant |rows| == |start|
        invariant forall k :: 0 <= k < |rows| ==>
          rows[k] == if start[k].id in Ids(messages[..i]) then HandRow(start[k], t) else start[k]
      {
        var id := messages[i].id;
        ghost var before := rows;
        rows := Updated((r: Inbound) => if r.id == id then HandRow(r, t) else r, rows);
        NextId(messages, i);
      }
      assert messages[..|messages|] == messages;
    }

    method ClaimPending(p: Policy, c: Clock, limit: nat, lost: set<Id>) returns (messages: seq<Inbound>)
      requires Inv(p, State())
      modifies this
      ensures State() == Next(p, old(State()), Claim(c, limit, lost))
      ensures messages == Select(Settled(p, c, old(rows)), c.select, limit, |old(rows)|)
      ensures Inv(p, State())
      ensures |rows| == |old(rows)|
      ensures InFlightSince(messages, rows, c.stamp)
    {
      ghost var q := State();
      StepKeepsInv(p, q, Claim(c, limit, lost));
      SettleLeases(p, c, lost);
      ghost var settled := rows;
      assert UniqueIds(settled);
      messages := Select(rows, c.select, limit, |rows|);
      SelectHasUniqueIds(rows, c.select, limit, |rows|);
      StampClaimed(messages, c.stamp);
      forall k | 0 <= k < |settled| ensures rows[k] == Handed(settled, c, limit)[k] {
        SelectedIds(settled, c.select, limit, k);
      }
      assert rows == Handed(settled, c, limit);
      HandedAreInFlight(settled, c, limit);
    }

    method MarkCompleted(p: Policy, ids: seq<Id>, now: Second)
      modifies this
      ensures State() == Next(p, old(State()), Complete(ids, now))
      ensures outbound == old(outbound) && |rows| == |old(rows)|
      ensures forall k :: 0 <= k < |rows| ==>
        rows[k] == if old(rows)[k].id in ids then old(rows)[k].(status := Completed, statusChanged := now)
                   else old(rows)[k]
      ensures forall id :: id in cancels <==> id in old(cancels) && id !in ids
    {
      ghost var start, flags := rows, cancels;
      for i := 0 to |ids|
        invariant rows == Updated(r => CompleteRow(SetOf(ids[..i]), now, r), start)
        invariant cancels == flags - SetOf(ids[..i])
        invariant outbound == old(outbound)
      {
        var id := ids[i];
        assert SetOf(ids[..i + 1]) == SetOf(ids[..i]) + {id};
        rows := Updated(r => CompleteRow({id}, now, r), rows);
        cancels := cancels - {id};
      }
      assert ids[..|ids|] == ids;
    }

    method RequeueInbound(p: Policy, id: Id, now: Second) returns (changed: bool)
      modifies this
      ensures State() == Next(p, old(State()), Requeue(id, now))
      ensures changed <==> exists r :: r in old(rows) && r.id == id
      ensures outbound == old(outbound) && cancels == old(cancels) && |rows| == |old(rows)|
      ensures forall k :: 0 <= k < |rows| && old(rows)[k].id != id ==> rows[k] == old(rows)[k]
      ensures forall k :: 0 <= k < |rows| && old(rows)[k].id == id ==>
        rows[k] == old(rows)[k].(status := Pending, tries := 0, processAfter := None, statusChanged := now)
    {
      changed := id in Ids(rows);
      rows := Updated(r => RequeueRow(id, now, r), rows);
    }

    method CancelPendingInbound(p: Policy, now: Second) returns (dropped: nat)
      modifies this
      ensures State() == Next(p, old(State()), CancelPending(now))
      ensures outbound == old(outbound) && cancels == old(cancels) && |rows| == |old(rows)|
      ensures forall k :: 0 <= k < |rows| && !old(rows)[k].status.Pending? ==> rows[k] == old(rows)[k]
      ensures forall k :: 0 <= k < |rows| && old(rows)[k].status.Pending? ==>
        rows[k] == old(rows)[k].(status := Failed, statusChanged := now)
      ensures dropped == |set k | 0 <= k < |old(rows)| && old(rows)[k].status == Pending|
    {
      StatsAreExact(rows);
      dropped := Count(rows, Pending, |rows|);
      rows := Updated(r => CancelRow(now, r), rows);
    }

    /** Reports how many turns are newly flagged; a second request flags none. */
    method RequestCancelInProgress(p: Policy) returns (flagged: nat)
      modifies this
      ensures State() == Next(p, old(State()), RequestCancel)
      ensures flagged == |cancels - old(cancels)| && rows == old(rows) && outbound == old(outbound)
      ensures forall id :: id in cancels <==>
        id in old(cancels) || exists r :: r in rows && r.status.Processing? && r.id == id
    {
      flagged := |InFlight(rows) - cancels|;
      assert (cancels + InFlight(rows)) - cancels == InFlight(rows) - cancels;
      cancels := cancels + InFlight(rows);
    }

    method Post(p: Policy, message: Outbound)
      modifies this`outbound
      ensures State() == Next(p, old(State()), WriteOutbound(message))
      ensures outbound == old(outbound) + [message]
    {
      outbound := outbound + [message];
    }

    /** Answers the messages in turn, up to the first whose text cannot be read or whose answer
        cannot be written. */
    method AnswerEach(p: Policy, messages: seq<Inbound>, read: string -> Option<string>, writable: nat -> bool)
      returns (ok: bool)
      modifies this`outbound
      ensures outbound == old(outbound) + Replies(messages, read, FirstFailure(messages, read, writable, 0))
      ensures ok <==> FirstFailure(messages, read, writable, 0) == |messages|
      ensures AnsweredInOrder(messages, read, old(outbound), outbound)
      ensures ok <==> forall i :: 0 <= i < |messages| ==> read(messages[i].content).Some? && writable(i)
    {
      RepliesAre(messages, read, writable);
      AnswersFollow(messages, read, outbound, FirstFailure(messages, read, writable, 0));
      ok := PostEchoes(p, messages, read, writable);
    }

    method PostEchoes(p: Policy, messages: seq<Inbound>, read: string -> Option<string>, writable: nat -> bool)
      returns (ok: bool)
      modifies this`outbound
      ensures outbound == old(outbound) + Replies(messages, read, FirstFailure(messages, read, writable, 0))
      ensures ok <==> FirstFailure(messages, read, writable, 0) == |messages|
    {
      for i := 0 to |messages|
        invariant FirstFailure(messages, read, writable, 0) == FirstFailure(messages, read, writable, i)
        invariant outbound == old(outbound) + Replies(messages, read, i)
      {
        var text := read(messages[i].content);
        if text.None? || !writable(i) {
          return false;
        }
        Post(p, EchoOf(messages[i], text.value));
      }
      ok := true;
    }

    /**
     * One pass of the local runner: claim, answer, complete. If an answer fails, every claimed
     * message stays in flight and nothing is completed.
     */
    method RunOnce(p: Policy, c: Clock, limit: nat, lost: set<Id>, read: string -> Option<string>,
                   writable: nat -> bool, now: Second)
      returns (done: Option<nat>)
      requires Inv(p, State())
      modifies this
      ensures
        var messages := Select(Settled(p, c, old(rows)), c.select, limit, |old(rows)|);
        var answers := FirstFailure(messages, read, writable, 0);
        var claimed := Next(p, old(State()), Claim(c, limit, lost));
        var answered := claimed.(outbound := claimed.outbound + Replies(messages, read, answers));
        && AnsweredInOrder(messages, read, claimed.outbound, outbound)
        && done == (if answers == |messages| then Some(|messages|) else None)
        && State() == (if done.Some? then Next(p, answered, Complete(IdList(messages), now)) else answered)
    {
      var messages := ClaimPending(p, c, limit, lost);
      var ok := AnswerEach(p, messages, read, writable);
      if !ok {
        return None;
      }
      MarkCompleted(p, IdList(messages), now);
      done := Some(|messages|);
    }
  }

  /** The row a claimed message is in afterwards. */
  predicate Hands(m: Inbound, r: Inbound) {
    SameMessage(m, r) && r.tries == m.tries + 1 && r.processAfter == m.processAfter
  }

  ghost predicate Handover(messages: seq<Inbound>, r: Inbound) {
    exists m :: m in messages && Hands(m, r)
  }

  /** `o` answers `m` with an echo of `text`, on the channel, platform and thread it came from. */
  predicate Echoes(m: Inbound, text: Option<string>, o: Outbound) {
    && text.Some? && o.inReplyTo == Some(m.id) && o.kind == "chat" && o.body == Written("echo: " + text.value)
    && o.to.channel == m.from.channel && o.to.platform == m.from.platform && o.to.thread == m.from.thread
  }

  /** The outbound table has grown by one answer to each of the first messages, in order. */
  ghost predicate AnsweredInOrder(messages: seq<Inbound>, read: string -> Option<string>, before: seq<Outbound>,
                                  after: seq<Outbound>) {
    && |before| <= |after| <= |before| + |messages| && after[..|before|] == before
    && forall i :: 0 <= i < |after| - |before| ==>
         Echoes(messages[i], read(messages[i].content), after[|before| + i])
  }

  lemma {:induction false} RepliesUpTo(messages: seq<Inbound>, read: string -> Option<string>, n: nat)
    requires n <= |messages| && forall i :: 0 <= i < n ==> read(messages[i].content).Some?
    ensures |Replies(messages, read, n)| == n
    ensures forall i :: 0 <= i < n ==> Echoes(messages[i], read(messages[i].content), Replies(messages, read, n)[i])
  {
    if n > 0 {
      RepliesUpTo(messages, read, n - 1);
    }
  }

  lemma {:induction false} FirstFailureIs(messages: seq<Inbound>, read: string -> Option<string>,
                                          writable: nat -> bool, i: nat)
    requires i <= |messages|
    ensures var n := FirstFailure(messages, read, writable, i);
            && (forall j :: i <= j < n ==> read(messages[j].content).Some? && writable(j))
            && (n < |messages| ==> read(messages[n].content).None? || !writable(n))
    decreases |messages| - i
  {
    if i < |messages| && read(messages[i].content).Some? && writable(i) {
      FirstFailureIs(messages, read, writable, i + 1);
    }
  }

  lemma RepliesAre(messages: seq<Inbound>, read: string -> Option<string>, writable: nat -> bool)
    ensures var n := FirstFailure(messages, read, writable, 0);
            && (forall i :: 0 <= i < n ==> read(messages[i].content).Some?)
            && (n == |messages| <==> forall i :: 0 <= i < |messages| ==> read(messages[i].content).Some? && writable(i))
  {
    FirstFailureIs(messages, read, writable, 0);
  }

  lemma AnswersFollow(messages: seq<Inbound>, read: string -> Option<string>, before: seq<Outbound>, n: nat)
    requires n <= |messages| && forall i :: 0 <= i < n ==> read(messages[i].content).Some?
    ensures AnsweredInOrder(messages, read, before, before + Replies(messages, read, n))
  {
    RepliesUpTo(messages, read, n);
  }

  /** Every claimed message is in flight afterwards, with one more try, since the stamp. */
  ghost predicate InFlightSince(messages: seq<Inbound>, rows: seq<Inbound>, t: Second) {
    forall k :: 0 <= k < |rows| && rows[k].id in Ids(messages) ==>
      rows[k].status.Processing? && rows[k].statusChanged == t && Handover(messages, rows[k])
  }

  lemma HandedAreInFlight(settled: seq<Inbound>, c: Clock, limit: nat)
    requires UniqueIds(settled)
    ensures InFlightSince(Select(settled, c.select, limit, |settled|), Handed(settled, c, limit), c.stamp)
  {
    var messages, rows := Select(settled, c.select, limit, |settled|), Handed(settled, c, limit);
    forall k | 0 <= k < |rows| && rows[k].id in Ids(messages)
      ensures rows[k].status.Processing? && rows[k].statusChanged == c.stamp && Handover(messages, rows[k])
    {
      SelectedIds(settled, c.select, limit, k);
      SelectIsPicks(settled, c.select, limit, |settled|);
      assert settled[k] in messages && Hands(settled[k], rows[k]);
    }
  }

  /** Recovering returns what still has tries, so it hides nothing from the dead-letter query. */
  lemma ListedDead(p: Policy, c: Clock, rows: seq<Inbound>)
    ensures forall r :: r in Dead(p, Recovered(p, c, rows), c.listDead) <==>
      r in rows && r.status.Processing? && r.tries >= p.Tries() && r.statusChanged + p.Lease() <= c.listDead
  {
    var live := Recovered(p, c, rows);
    forall r ensures r in Dead(p, live, c.listDead) <==>
      r in rows && r.status.Processing? && r.tries >= p.Tries() && r.statusChanged + p.Lease() <= c.listDead
    {
      DeadAreExhausted(p, live, c.listDead, r);
      if r in live && Exhausted(p, r, c.listDead) {
        var k :| 0 <= k < |live| && live[k] == r;
        assert rows[k] in rows;
      }
      if r in rows && Exhausted(p, r, c.listDead) {
        var k :| 0 <= k < |rows| && rows[k] == r;
        assert live[k] in live;
      }
    }
  }

  lemma NextId(messages: seq<Inbound>, i: nat)
    requires i < |messages| && UniqueIds(messages)
    ensures Ids(messages[..i + 1]) == Ids(messages[..i]) + {messages[i].id}
    ensures messages[i].id !in Ids(messages[..i])
  {
    forall id ensures id in Ids(messages[..i + 1]) <==> id in Ids(messages[..i]) + {messages[i].id} {
      if id in Ids(messages[..i]) {
        var k :| 0 <= k < i && messages[..i][k].id == id;
        assert messages[..i + 1][k].id == id;
      }
      if id == messages[i].id {
        assert messages[..i + 1][i].id == id;
      }
      if id in Ids(messages[..i + 1]) {
        var k :| 0 <= k < i + 1 && messages[..i + 1][k].id == id;
        if k < i {
          assert messages[..i][k].id == id;
        }
      }
    }
  }

  function IdList(messages: seq<Inbound>): seq<Id> {
    seq(|messages|, i requires 0 <= i < |messages| => messages[i].id)
  }

  /** The first message from the `i`-th on that cannot be answered. */
  function FirstFailure(messages: seq<Inbound>, read: string -> Option<string>, writable: nat -> bool, i: nat): (n: nat)
    requires i <= |messages|
    ensures i <= n <= |messages|
    decreases |messages| - i
  {
    if i == |messages| || read(messages[i].content).None? || !writable(i) then i
    else FirstFailure(messages, read, writable, i + 1)
  }

  function EchoOf(m: Inbound, text: string): Outbound {
    Outbound(Some(m.id), "chat", m.from, Written("echo: " + text))
  }

  function Replies(messages: seq<Inbound>, read: string -> Option<string>, n: nat): seq<Outbound>
    requires n <= |messages|
  {
    if n == 0 then []
    else
      Replies(messages, read, n - 1)
      + (match read(messages[n - 1].content)
         case Some(text) => [EchoOf(messages[n - 1], text)]
         case None => [])
  }
}
