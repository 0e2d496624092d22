/**
 * Delivering a session's outbound messages. Several deliverers share the `delivered` table: each lists,
 * claims, sends, and then records the platform id or gives the claim back. Observers (the outbox
 * listing, the web cockpit, an agent run) mark messages without ever claiming them. The world below
 * interleaves all of them step by step, with crashes and failed table writes allowed anywhere.
 */
module Delivery {
  import opened Text

  type Id = string
  type Worker = nat

  datatype Message = Message(id: Id, body: string)

  /** A row with no platform id is a claim, or a delivery nobody got an id for. */
  type Table = map<Id, Option<string>>

  // ---------------------------------------------------------------- the table operations

  /** INSERT OR IGNORE. */
  function Claimed(t: Table, id: Id): Table {
    if id in t then t else t[id := None]
  }

  /** INSERT OR REPLACE. */
  function Marked(t: Table, id: Id, pid: Option<string>): Table {
    t[id := pid]
  }

  /** DELETE, but only of a row without platform id. */
  function Unclaimed(t: Table, id: Id): Table {
    if id in t && t[id].None? then t - {id} else t
  }

  function Undelivered(outbound: seq<Message>, t: Table): seq<Message> {
    if outbound == [] then []
    else if outbound[0].id in t then Undelivered(outbound[1..], t)
    else [outbound[0]] + Undelivered(outbound[1..], t)
  }

  lemma {:induction false} UndeliveredIff(outbound: seq<Message>, t: Table, m: Message)
    ensures m in Undelivered(outbound, t) <==> m in outbound && m.id !in t
  {
    if outbound != [] {
      UndeliveredIff(outbound[1..], t, m);
      assert m in outbound <==> m == outbound[0] || m in outbound[1..];
    }
  }

  /** Every other message has the row it had. */
  ghost predicate SameBut(before: Table, after: Table, id: Id) {
    && (forall k :: k != id ==> (k in after <==> k in before))
    && (forall k :: k != id && k in after && k in before ==> after[k] == before[k])
  }

  /** A recorded platform id is stored, and protects its row: giving back changes nothing any more. */
  lemma RecordedIsKept(t: Table, id: Id, pid: string)
    ensures var marked := Marked(t, id, Some(pid));
            id in marked && marked[id] == Some(pid) && Unclaimed(marked, id) == marked && Claimed(marked, id) == marked
  {
  }

  /** Giving back undoes a claim exactly: it restores the table unless a bare claim was there before. */
  lemma UnclaimUndoesClaimIff(t: Table, id: Id)
    ensures Unclaimed(Claimed(t, id), id) == t <==> !(id in t && t[id].None?)
  {
    if id !in t {
      assert t[id := None] - {id} == t;
    } else if t[id].None? {
      assert id !in t - {id};
    }
  }

  /** The tables as the operations see them; the protocol below uses the same four table functions. */
  class Outbox {
    var outbound: seq<Message>
    var delivered: Table

    predicate Listed(m: Message)
      reads this
    {
      m in outbound && m.id !in delivered
    }

    constructor ()
      ensures outbound == [] && delivered == map[]
    {
      outbound, delivered := [], map[];
    }

    /** True only for the caller that finds no row. */
    method ClaimDelivery(id: Id) returns (won: bool)
      modifies this`delivered
      ensures delivered == Claimed(old(delivered), id)
      ensures won <==> delivered != old(delivered)
      ensures won <==> id !in old(delivered)
      ensures id in delivered && (won ==> delivered[id].None?) && SameBut(old(delivered), delivered, id)
    {
      won := id !in delivered;
      if won {
        delivered := delivered[id := None];
      }
    }

    /** Takes exactly this message off the undelivered list. */
    method MarkDelivered(id: Id, pid: Option<string>)
      modifies this`delivered
      ensures delivered == Marked(old(delivered), id, pid)
      ensures forall m :: Listed(m) <==> old(Listed(m)) && m.id != id
      ensures id in delivered && delivered[id] == pid && SameBut(old(delivered), delivered, id)
    {
      delivered := delivered[id := pid];
    }

    /** Puts exactly this message back on the list, and only if its row was a bare claim. */
    method UnclaimDelivery(id: Id)
      modifies this`delivered
      ensures delivered == Unclaimed(old(delivered), id)
      ensures forall m :: Listed(m) <==>
        old(Listed(m)) || (m in outbound && m.id == id && old(delivered)[id].None?)
      ensures SameBut(old(delivered), delivered, id)
      ensures id in old(delivered) && old(delivered)[id].Some? ==> delivered == old(delivered)
      ensures id in old(delivered) && old(delivered)[id].None? ==> id !in delivered
    {
      if id in delivered && delivered[id].None? {
        delivered := delivered - {id};
      }
    }

    method ListUndelivered() returns (messages: seq<Message>)
      ensures forall m :: m in messages <==> Listed(m)
    {
      messages := Undelivered(outbound, delivered);
      forall m ensures m in messages <==> Listed(m) {
        UndeliveredIff(outbound, delivered, m);
      }
    }
  }

  // ---------------------------------------------------------------- the protocol

  /** Where a deliverer is with the one message it has in hand. */
  datatype Phase = Idle | Holding(id: Id) | Sent(id: Id, pid: Option<string>) | Refused(id: Id)

  /**
   * `sent` lists the successful sends; `dropped` the messages a holder discarded as unreadable or
   * silent; `marked` those an observer marked; `stranded` those whose holder went away before sending.
   */
  datatype World = World(
    delivered: Table, phase: map<Worker, Phase>,
    sent: seq<Id>, dropped: set<Id>, marked: set<Id>, stranded: set<Id>)

  const START := World(map[], map[], [], {}, {}, {})

  /** `stored` says whether the table write of that step succeeds. */
  datatype Action =
    | TryClaim(w: Worker, id: Id)
    | SendOk(w: Worker, pid: Option<string>)
    | SendFails(w: Worker)
    | Discard(w: Worker)
    | Finalise(w: Worker, stored: bool)
    | GiveBack(w: Worker, stored: bool)
    | Crash(w: Worker)
    | Observe(id: Id, pid: Option<string>)

  function PhaseOf(s: World, w: Worker): Phase {
    if w in s.phase then s.phase[w] else Idle
  }

  function Goes(s: World, w: Worker, to: Phase): World {
    s.(phase := s.phase[w := to])
  }

  /** One step. A deliverer that is not in the phase a step starts from does nothing. */
  function Do(s: World, a: Action): World {
    match a
    case TryClaim(w, id) =>
      if PhaseOf(s, w).Idle? && id !in s.delivered
      then Goes(s, w, Holding(id)).(delivered := Claimed(s.delivered, id))
      else s
    case SendOk(w, pid) =>
      (match PhaseOf(s, w)
       case Holding(id) => Goes(s, w, Sent(id, pid)).(sent := s.sent + [id])
       case _ => s)
    case SendFails(w) =>
      (match PhaseOf(s, w)
       case Holding(id) => Goes(s, w, Refused(id))
       case _ => s)
    case Discard(w) =>
      (match PhaseOf(s, w)
       case Holding(id) => Goes(s, w, Idle).(delivered := Marked(s.delivered, id, None), dropped := s.dropped + {id})
       case _ => s)
    case Finalise(w, stored) =>
      (match PhaseOf(s, w)
       case Sent(id, pid) =>
         Goes(s, w, Idle).(delivered := if stored then Marked(s.delivered, id, pid) else s.delivered)
       case _ => s)
    case GiveBack(w, stored) =>
      (match PhaseOf(s, w)
       case Refused(id) =>
         if stored then Goes(s, w, Idle).(delivered := Unclaimed(s.delivered, id))
         else Goes(s, w, Idle).(stranded := s.stranded + {id})
       case _ => s)
    case Crash(w) =>
      (match PhaseOf(s, w)
       case Idle => s
       case Sent(_, _) => Goes(s, w, Idle)
       case Holding(id) => Goes(s, w, Idle).(stranded := s.stranded + {id})
       case Refused(id) => Goes(s, w, Idle).(stranded := s.stranded + {id}))
    case Observe(id, pid) => s.(delivered := Marked(s.delivered, id, pid), marked := s.marked + {id})
  }

  function After(s: World, run: seq<Action>): World
    decreases run
  {
    if run == [] then s else After(Do(s, run[0]), run[1..])
  }

  function Sends(sent: seq<Id>, id: Id): nat {
    multiset(sent)[id]
  }

  /** Deliverer `w` has `id` in hand; `Unsent` leaves out the one that has already sent it. */
  predicate Has(s: World, w: Worker, id: Id) {
    !PhaseOf(s, w).Idle? && PhaseOf(s, w).id == id
  }

  predicate Unsent(s: World, w: Worker, id: Id) {
    PhaseOf(s, w) == Holding(id) || PhaseOf(s, w) == Refused(id)
  }

  /** What each step does, from the phase it starts in: a free message is claimed by an idle deliverer and
      by nobody else; a send that succeeds is counted; a refused, discarded or finalised message leaves the
      hand of its deliverer; an observer's mark is stored. */
  lemma StepEffects(s: World, a: Action)
    ensures var t := Do(s, a);
            match a
            case TryClaim(w, id) =>
              if PhaseOf(s, w).Idle? && id !in s.delivered
              then PhaseOf(t, w) == Holding(id) && t.delivered == s.delivered[id := None] && t.sent == s.sent
              else t == s
            case SendOk(w, pid) =>
              PhaseOf(s, w).Holding? ==>
                PhaseOf(t, w) == Sent(PhaseOf(s, w).id, pid) && t.sent == s.sent + [PhaseOf(s, w).id]
                && t.delivered == s.delivered
            case SendFails(w) =>
              PhaseOf(s, w).Holding? ==>
                PhaseOf(t, w) == Refused(PhaseOf(s, w).id) && t.sent == s.sent && t.delivered == s.delivered
            case Discard(w) =>
              PhaseOf(s, w).Holding? ==>
                PhaseOf(t, w) == Idle && PhaseOf(s, w).id in t.delivered && PhaseOf(s, w).id in t.dropped
            case Finalise(w, stored) =>
              PhaseOf(s, w).Sent? && stored ==>
                PhaseOf(t, w) == Idle && t.delivered == s.delivered[PhaseOf(s, w).id := PhaseOf(s, w).pid]
            case GiveBack(w, stored) =>
              PhaseOf(s, w).Refused? ==> PhaseOf(t, w) == Idle && SameBut(s.delivered, t.delivered, PhaseOf(s, w).id)
            case Crash(w) => PhaseOf(t, w) == Idle && t.delivered == s.delivered && t.sent == s.sent
            case Observe(id, pid) => t.delivered == s.delivered[id := pid] && t.phase == s.phase
  {
  }

  // ---------------------------------------------------------------- what every interleaving keeps

  /** Whoever has a message in hand has its row, and nobody else has the message. */
  ghost predicate HeldOnce(s: World) {
    && (forall w, id :: Has(s, w, id) ==> id in s.delivered)
    && (forall v, w, id :: Has(s, v, id) && Has(s, w, id) ==> v == w)
  }

  /** A sent message keeps its row, was sent once, and is in nobody's hand unsent. */
  ghost predicate SentOnce(s: World) {
    && (forall id :: id in s.sent ==> id in s.delivered && Sends(s.sent, id) == 1)
    && (forall w, id :: Unsent(s, w, id) ==> id !in s.sent)
  }

  ghost predicate SentRecorded(s: World) {
    forall w :: PhaseOf(s, w).Sent? ==> PhaseOf(s, w).id in s.sent
  }

  /** Every row has a reason to be there, and a platform id comes from a send or an observer. */
  ghost predicate Accounted(s: World) {
    forall id :: id in s.delivered ==>
      Closed(s, id) || (s.delivered[id].None? && exists w :: Unsent(s, w, id))
  }

  predicate Closed(s: World, id: Id) {
    id in s.sent || id in s.dropped || id in s.marked || id in s.stranded
  }

  ghost predicate Inv(s: World) {
    HeldOnce(s) && SentOnce(s) && SentRecorded(s) && Accounted(s)
  }

  lemma StepKeepsHeldOnce(s: World, a: Action)
    requires HeldOnce(s)
    ensures HeldOnce(Do(s, a))
  {
    var t := Do(s, a);
    forall v, w, id | Has(t, v, id) && Has(t, w, id) ensures v == w {
      assert Has(s, v, id) || id !in s.delivered;
      assert Has(s, w, id) || id !in s.delivered;
    }
    forall w, id | Has(t, w, id) ensures id in t.delivered {
      assert Has(s, w, id) || id !in s.delivered;
      if a.GiveBack? && Has(s, a.w, id) {
        assert Has(s, w, id);
      }
    }
  }

  lemma SendOnceMore(sent: seq<Id>, id: Id)
    ensures forall other :: Sends(sent + [id], other) == Sends(sent, other) + if other == id then 1 else 0
    ensures id !in sent ==> Sends(sent, id) == 0
  {
  }

  lemma SendKeepsSentOnce(s: World, w: Worker, pid: Option<string>)
    requires HeldOnce(s) && SentOnce(s)
    ensures SentOnce(Do(s, SendOk(w, pid)))
  {
    var t := Do(s, SendOk(w, pid));
    if PhaseOf(s, w).Holding? {
      var id := PhaseOf(s, w).id;
      assert Unsent(s, w, id) && Has(s, w, id);
      SendOnceMore(s.sent, id);
      forall v, other | Unsent(t, v, other) ensures other !in t.sent {
        assert Unsent(s, v, other) && Has(s, v, other);
      }
    }
  }

  lemma GiveBackKeepsSentOnce(s: World, w: Worker, stored: bool)
    requires SentOnce(s)
    ensures SentOnce(Do(s, GiveBack(w, stored)))
  {
    var t := Do(s, GiveBack(w, stored));
    if PhaseOf(s, w).Refused? {
      assert Unsent(s, w, PhaseOf(s, w).id);
      forall v, id | Unsent(t, v, id) ensures id !in t.sent {
        assert Unsent(s, v, id);
      }
    }
  }

  /** The other steps send nothing and take no row away. */
  lemma OtherStepKeepsSentOnce(s: World, a: Action)
    requires SentOnce(s) && !a.SendOk? && !a.GiveBack?
    ensures SentOnce(Do(s, a))
  {
    var t := Do(s, a);
    assert t.sent == s.sent && s.delivered.Keys <= t.delivered.Keys;
    forall v, id | Unsent(t, v, id) ensures id !in t.sent {
      assert Unsent(s, v, id) || id !in s.delivered;
    }
  }

  lemma StepKeepsSentOnce(s: World, a: Action)
    requires HeldOnce(s) && SentOnce(s)
    ensures SentOnce(Do(s, a))
  {
    match a
    case SendOk(w, pid) => SendKeepsSentOnce(s, w, pid);
    case GiveBack(w, stored) => GiveBackKeepsSentOnce(s, w, stored);
    case _ => OtherStepKeepsSentOnce(s, a);
  }

  lemma StepKeepsSentRecorded(s: World, a: Action)
    requires SentRecorded(s)
    ensures SentRecorded(Do(s, a))
  {
    var t := Do(s, a);
    forall w | PhaseOf(t, w).Sent? ensures PhaseOf(t, w).id in t.sent {
      assert PhaseOf(s, w).Sent? ==> PhaseOf(s, w).id in s.sent;
    }
  }

  lemma StepKeepsAccounted(s: World, a: Action)
    requires HeldOnce(s) && SentRecorded(s) && Accounted(s)
    ensures Accounted(Do(s, a))
  {
    var t := Do(s, a);
    forall id | id in t.delivered
      ensures Closed(t, id) || (t.delivered[id].None? && exists w :: Unsent(t, w, id))
    {
      if id !in s.delivered {
        if a.TryClaim? {
          assert Unsent(t, a.w, id);
        }
      } else if Closed(s, id) {
        assert Closed(t, id);
      } else {
        var w :| Unsent(s, w, id);
        assert Has(s, w, id);
        if a.Observe? || a.w != w {
          assert PhaseOf(t, w) == PhaseOf(s, w);
        }
        assert Closed(t, id) || Unsent(t, w, id);
      }
    }
  }

  lemma {:induction false} RunKeepsInv(s: World, run: seq<Action>)
    requires Inv(s)
    ensures Inv(After(s, run))
    decreases run
  {
    if run != [] {
      StepKeepsHeldOnce(s, run[0]);
      StepKeepsSentOnce(s, run[0]);
      StepKeepsSentRecorded(s, run[0]);
      StepKeepsAccounted(s, run[0]);
      RunKeepsInv(Do(s, run[0]), run[1..]);
    }
  }

  /** At most once: no interleaving, crash or lost write makes two sends of one message succeed. */
  lemma AtMostOnce(run: seq<Action>, id: Id)
    ensures Sends(After(START, run).sent, id) <= 1
  {
    RunKeepsInv(START, run);
    if id !in After(START, run).sent {
      SendOnceMore(After(START, run).sent, id);
    }
  }

  /** At any time at most one deliverer has a given message in hand. */
  lemma OneHolder(run: seq<Action>, v: Worker, w: Worker, id: Id)
    requires Has(After(START, run), v, id) && Has(After(START, run), w, id)
    ensures v == w && id in After(START, run).delivered
  {
    RunKeepsInv(START, run);
  }

  // ---------------------------------------------------------------- final rows

  /** The row of `id` is there and no deliverer can still take it away. */
  ghost predicate Final(s: World, id: Id) {
    id in s.delivered && forall w :: !Unsent(s, w, id)
  }

  lemma StepKeepsFinal(s: World, a: Action, id: Id)
    requires Final(s, id)
    ensures Final(Do(s, a), id)
    ensures Sends(Do(s, a).sent, id) == Sends(s.sent, id)
  {
    var t := Do(s, a);
    forall w ensures !Unsent(t, w, id) {
      assert !Unsent(s, w, id);
    }
    if !a.Observe? {
      assert !Unsent(s, a.w, id);
    }
  }

  lemma {:induction false} RunKeepsFinal(s: World, run: seq<Action>, id: Id)
    requires Final(s, id)
    ensures Final(After(s, run), id)
    ensures Sends(After(s, run).sent, id) == Sends(s.sent, id)
    decreases run
  {
    if run != [] {
      StepKeepsFinal(s, run[0], id);
      RunKeepsFinal(Do(s, run[0]), run[1..], id);
    }
  }

  /** The way an unsent message in hand comes back: the send fails and the claim is given back. */
  function ComesBack(w: Worker, id: Id): seq<Action> {
    [SendFails(w), Observe(id, None), GiveBack(w, true)]
  }

  lemma UnsentCanComeBack(s: World, w: Worker, id: Id)
    requires Unsent(s, w, id)
    ensures id !in After(s, ComesBack(w, id)).delivered
  {
    var s1 := Do(s, SendFails(w));
    var s2 := Do(s1, Observe(id, None));
    var s3 := Do(s2, GiveBack(w, true));
    assert PhaseOf(s2, w) == Refused(id);
    var run := ComesBack(w, id);
    assert run[1..] == [Observe(id, None), GiveBack(w, true)];
    assert run[1..][1..] == [GiveBack(w, true)];
    assert After(s2, [GiveBack(w, true)]) == s3;
    assert After(s1, run[1..]) == s3;
    assert After(s, run) == s3;
  }

  ghost predicate NeverListed(s: World, id: Id) {
    forall run :: id in After(s, run).delivered
  }

  /** A message stays off the undelivered list in every continuation exactly when nobody has it in hand unsent. */
  lemma NeverListedAgainIff(s: World, id: Id)
    ensures NeverListed(s, id) <==> Final(s, id)
  {
    if Final(s, id) {
      forall run ensures id in After(s, run).delivered {
        RunKeepsFinal(s, run, id);
      }
    } else if NeverListed(s, id) {
      assert id in After(s, []).delivered;
      var w :| Unsent(s, w, id);
      UnsentCanComeBack(s, w, id);
      assert false;
    }
  }

  /** Finalising records the platform id the send came back with, and touches no other row. */
  lemma FinaliseRecords(s: World, w: Worker)
    requires PhaseOf(s, w).Sent?
    ensures var t, id := Do(s, Finalise(w, true)), PhaseOf(s, w).id;
            && PhaseOf(t, w).Idle? && id in t.delivered && t.delivered[id] == PhaseOf(s, w).pid
            && SameBut(s.delivered, t.delivered, id) && t.sent == s.sent
  {
  }

  /** What was sent is never listed again and never sent again, whatever happens next. */
  lemma SentIsFinal(run: seq<Action>, later: seq<Action>, id: Id)
    requires id in After(START, run).sent
    ensures id in After(After(START, run), later).delivered
    ensures Sends(After(After(START, run), later).sent, id) == 1
  {
    RunKeepsInv(START, run);
    var s := After(START, run);
    forall w ensures !Unsent(s, w, id) {
    }
    RunKeepsFinal(s, later, id);
  }

  /**
   * Giving a claim back after a failed send makes the message listable again, exactly when no
   * observer recorded a platform id for it in the meantime.
   */
  lemma FailedSendIsListableIff(run: seq<Action>, w: Worker, outbound: seq<Message>, m: Message)
    requires PhaseOf(After(START, run), w) == Refused(m.id) && m in outbound
    ensures m.id in After(START, run).delivered
    ensures m in Undelivered(outbound, Do(After(START, run), GiveBack(w, true)).delivered)
            <==> After(START, run).delivered[m.id].None?
  {
    RunKeepsInv(START, run);
    assert Has(After(START, run), w, m.id);
    UndeliveredIff(outbound, Do(After(START, run), GiveBack(w, true)).delivered, m);
  }

  /** A deliverer that goes away before sending loses the message: it is never listed and never sent. */
  lemma CrashLosesTheMessage(run: seq<Action>, w: Worker, later: seq<Action>, id: Id)
    requires Unsent(After(START, run), w, id)
    ensures
      var after := After(Do(After(START, run), Crash(w)), later);
      id in after.delivered && id !in after.sent
  {
    RunKeepsInv(START, run);
    var s := After(START, run);
    var t := Do(s, Crash(w));
    assert Has(s, w, id);
    forall v ensures !Unsent(t, v, id) {
      if v != w && Unsent(s, v, id) {
        assert Has(s, v, id);
      }
    }
    RunKeepsFinal(t, later, id);
    SendOnceMore(t.sent, id);
    assert id !in s.sent;
  }

  /** No holder goes away before sending, and no claim fails to be given back. */
  predicate Reliable(a: Action) {
    !a.Crash? && !(a.GiveBack? && !a.stored)
  }

  lemma {:induction false} ReliableStrandsNothing(s: World, run: seq<Action>)
    requires forall i :: 0 <= i < |run| ==> Reliable(run[i])
    ensures After(s, run).stranded == s.stranded
    decreases run
  {
    if run != [] {
      assert Reliable(run[0]);
      ReliableStrandsNothing(Do(s, run[0]), run[1..]);
    }
  }

  /** Without crashes no message is lost: off the list means sent, dropped, marked, or in hand about to be sent. */
  lemma NothingVanishes(run: seq<Action>, id: Id)
    requires forall i :: 0 <= i < |run| ==> Reliable(run[i])
    ensures
      var s := After(START, run);
      id in s.delivered ==> id in s.sent || id in s.dropped || id in s.marked || exists w :: Unsent(s, w, id)
  {
    RunKeepsInv(START, run);
    ReliableStrandsNothing(START, run);
  }
}
