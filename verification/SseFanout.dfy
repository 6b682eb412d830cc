/** The stream of new bids to web clients: bounded queues that drop what does not fit
    (`services/bidcollect/webserver/webserver.go`, `services/bidcollect/webserver/handler.go`). */
module SseFanout {
  import opened Wrappers
  import opened Sequences

  const CAPACITY := 100

  // ---------------------------------------------------------------- one subscriber

  /** What happens to the channel of a subscriber: a message is offered to it, or one is taken out. */
  datatype Event = Offered(msg: string) | Taken

  function Queue(events: seq<Event>): seq<string> {
    if events == [] then []
    else
      var queue := Queue(events[..|events| - 1]);
      match events[|events| - 1]
      case Offered(msg) => if |queue| < CAPACITY then queue + [msg] else queue
      case Taken => if queue == [] then [] else queue[1..]
  }

  /** What the handler has written to the client. */
  function Written(events: seq<Event>): seq<string> {
    if events == [] then []
    else
      var front := events[..|events| - 1];
      Written(front) + if events[|events| - 1].Taken? && Queue(front) != [] then [Queue(front)[0]] else []
  }

  /** The messages that were offered. */
  function Offers(events: seq<Event>): seq<string> {
    if events == [] then []
    else
      Offers(events[..|events| - 1]) +
      match events[|events| - 1]
      case Offered(msg) => [msg]
      case Taken => []
  }

  /** Which of the offered messages found room, by their numbers. */
  function Accepted(events: seq<Event>): seq<nat> {
    if events == [] then []
    else
      var front := events[..|events| - 1];
      Accepted(front) +
      if events[|events| - 1].Offered? && |Queue(front)| < CAPACITY then [|Offers(front)|] else []
  }

  ghost predicate Increasing(ns: seq<nat>, below: nat) {
    && (forall i | 0 <= i < |ns| :: ns[i] < below)
    && (forall i, j | 0 <= i < j < |ns| :: ns[i] < ns[j])
  }

  /** `part` are the elements of `all` with these numbers. */
  ghost predicate Picks(part: seq<string>, all: seq<string>, ns: seq<nat>) {
    && |part| == |ns| && Increasing(ns, |all|)
    && forall i | 0 <= i < |ns| :: part[i] == all[ns[i]]
  }

  /** What was written and what is queued is, in order, what found room. */
  lemma {:induction false} InOrder(events: seq<Event>)
    ensures |Queue(events)| <= CAPACITY
    ensures Picks(Written(events) + Queue(events), Offers(events), Accepted(events))
  {
    if events != [] {
      var front, last := events[..|events| - 1], events[|events| - 1];
      InOrder(front);
      var before := Written(front) + Queue(front);
      match last
      case Offered(msg) =>
        if |Queue(front)| < CAPACITY {
          assert Written(events) + Queue(events) == before + [msg];
        }
      case Taken =>
        assert Written(events) + Queue(events) == before;
    }
  }

  function OffersOf(msgs: seq<string>): seq<Event> {
    seq(|msgs|, i requires 0 <= i < |msgs| => Offered(msgs[i]))
  }

  /** A subscriber that reads nothing gets the first hundred messages and misses all later ones. */
  lemma {:induction false} FirstHundredFit(msgs: seq<string>)
    ensures Queue(OffersOf(msgs)) == if |msgs| <= 100 then msgs else msgs[..100]
  {
    if msgs != [] {
      var n := |msgs| - 1;
      FirstHundredFit(msgs[..n]);
      assert OffersOf(msgs)[..n] == OffersOf(msgs[..n]);
    }
  }

  /** The message of number `k` is offered at position `at`. */
  ghost predicate OfferedAt(events: seq<Event>, k: nat, at: nat) {
    at < |events| && events[at].Offered? && |Offers(events[..at])| == k
  }

  lemma OfferedAtFront(events: seq<Event>, k: nat, at: nat)
    requires events != []
    ensures at < |events| - 1 ==> (OfferedAt(events, k, at) <==> OfferedAt(events[..|events| - 1], k, at))
  {
    if at < |events| - 1 { assert events[..|events| - 1][..at] == events[..at]; }
  }

  /** Every message was offered once; it is missing from what was written and queued exactly if the
      queue was full at that moment. */
  lemma {:induction false} MissingExactlyWhenFull(events: seq<Event>, k: nat) returns (at: nat)
    requires k < |Offers(events)|
    ensures OfferedAt(events, k, at) && events[at].msg == Offers(events)[k]
    ensures k !in Accepted(events) <==> |Queue(events[..at])| == CAPACITY
  {
    var n := |events| - 1;
    var front := events[..n];
    InOrder(front);
    if k < |Offers(front)| {
      at := MissingExactlyWhenFull(front, k);
      OfferedAtFront(events, k, at);
      assert front[..at] == events[..at];
    } else {
      at := n;
    }
  }

  // ---------------------------------------------------------------- the server's objects

  class SSESubscription {
    const uid: string
    var msgC: seq<string>
    var written: seq<string>
    ghost var events: seq<Event>

    ghost predicate Valid()
      reads this
    {
      msgC == Queue(events) && written == Written(events)
    }

    constructor (uid: string)
      ensures Valid() && this.uid == uid && events == []
    {
      this.uid, msgC, written, events := uid, [], [], [];
    }

    /** Sending with a default case. */
    method Offer(msg: string)
      requires Valid()
      modifies this
      ensures Valid() && events == old(events) + [Offered(msg)]
    {
      if |msgC| < CAPACITY {
        msgC := msgC + [msg];
      }
      events := events + [Offered(msg)];
      assert events[..|events| - 1] == old(events);
    }

    /** The handler takes a message and writes it. */
    method Receive()
      requires Valid() && msgC != []
      modifies this
      ensures Valid() && events == old(events) + [Taken] && written == old(written) + [old(msgC)[0]]
    {
      var msg := msgC[0];
      msgC, written := msgC[1..], written + [msg];
      events := events + [Taken];
      assert events[..|events| - 1] == old(events);
    }
  }

  class Server {
    var sseConnectionMap: map<string, SSESubscription>

    ghost predicate Valid()
      reads this, sseConnectionMap.Values
    {
      forall uid | uid in sseConnectionMap :: sseConnectionMap[uid].uid == uid && sseConnectionMap[uid].Valid()
    }

    constructor ()
      ensures Valid() && sseConnectionMap == map[]
    {
      sseConnectionMap := map[];
    }

    method AddSubscriber(sub: SSESubscription)
      requires Valid() && sub.Valid() && sub.uid !in sseConnectionMap
      modifies this
      ensures Valid() && sseConnectionMap == old(sseConnectionMap)[sub.uid := sub]
    {
      sseConnectionMap := sseConnectionMap[sub.uid := sub];
    }

    method RemoveSubscriber(sub: SSESubscription)
      requires Valid()
      modifies this
      ensures Valid() && sseConnectionMap == old(sseConnectionMap) - {sub.uid}
    {
      sseConnectionMap := sseConnectionMap - {sub.uid};
    }

    /** The message is offered to every subscriber, once, in whatever order. */
    method SendToSubscribers(msg: string)
      requires Valid()
      modifies sseConnectionMap.Values
      ensures Valid()
      ensures forall uid | uid in sseConnectionMap ::
                sseConnectionMap[uid].events == old(sseConnectionMap[uid].events) + [Offered(msg)]
    {
      if |sseConnectionMap| == 0 { return; }
      var todo := sseConnectionMap.Keys;
      while todo != {}
        invariant todo <= sseConnectionMap.Keys && Valid()
        invariant forall uid | uid in todo :: sseConnectionMap[uid].events == old(sseConnectionMap[uid].events)
        invariant forall uid | uid in sseConnectionMap && uid !in todo ::
                    sseConnectionMap[uid].events == old(sseConnectionMap[uid].events) + [Offered(msg)]
        decreases |todo|
      {
        var uid := AnyOf(todo);
        sseConnectionMap[uid].Offer(msg);
        todo := todo - {uid};
      }
    }
  }

  // ---------------------------------------------------------------- all goroutines

  /** A registered subscriber, with what has happened to its channel since it joined. */
  datatype Subscriber = Subscriber(queue: seq<string>, written: seq<string>, events: seq<Event>, joinedAt: nat)

  /** The sender holds the read lock from `Begin` to `End`; joining and leaving need the write lock. */
  datatype State = State(
    subscribers: map<string, Subscriber>,
    sending: Option<string>,
    todo: set<string>,
    sent: seq<string>)

  datatype Step =
    | Join(uid: string)
    | Leave(uid: string)
    | Begin(msg: string)
    | Push(uid: string)
    | End
    | Take(uid: string)

  predicate Enabled(s: State, step: Step) {
    match step
    case Join(uid) => s.sending.None? && uid !in s.subscribers
    case Leave(uid) => s.sending.None? && uid in s.subscribers
    case Begin(_) => s.sending.None?
    case Push(uid) => s.sending.Some? && uid in s.todo && uid in s.subscribers
    case End => s.sending.Some? && s.todo == {}
    case Take(uid) => uid in s.subscribers && s.subscribers[uid].queue != []
  }

  function Pushed(sub: Subscriber, msg: string): Subscriber {
    sub.(queue := if |sub.queue| < CAPACITY
      then sub.queue + [msg] else sub.queue, events := sub.events + [Offered(msg)])
  }

  function TakenFrom(sub: Subscriber): Subscriber
    requires sub.queue != []
  {
    sub.(queue := sub.queue[1..], written := sub.written + [sub.queue[0]], events := sub.events + [Taken])
  }

  function Next(s: State, step: Step): State
    requires Enabled(s, step)
  {
    match step
    case Join(uid) => s.(subscribers := s.subscribers[uid := Subscriber([], [], [], |s.sent|)])
    case Leave(uid) => s.(subscribers := s.subscribers - {uid})
    case Begin(msg) => s.(sending := Some(msg), todo := s.subscribers.Keys, sent := s.sent + [msg])
    case Push(uid) =>
      s.(subscribers := s.subscribers[uid := Pushed(s.subscribers[uid], s.sending.value)], todo := s.todo - {uid})
    case End => s.(sending := None)
    case Take(uid) => s.(subscribers := s.subscribers[uid := TakenFrom(s.subscribers[uid])])
  }

  ghost predicate SubscriberOk(sub: Subscriber, sent: seq<string>, waiting: bool) {
    && sub.queue == Queue(sub.events) && sub.written == Written(sub.events)
    && sub.joinedAt <= |sent| - (if waiting then 1 else 0)
    && Offers(sub.events) == sent[sub.joinedAt..|sent| - if waiting then 1 else 0]
  }

  ghost predicate Inv(s: State) {
    && s.todo <= s.subscribers.Keys
    && (s.sending.None? ==> s.todo == {})
    && (s.sending.Some? ==> s.sent != [] && s.sent[|s.sent| - 1] == s.sending.value)
    && forall uid | uid in s.subscribers :: SubscriberOk(s.subscribers[uid], s.sent, uid in s.todo)
  }

  lemma PushedOk(sub: Subscriber, sent: seq<string>)
    requires sent != [] && SubscriberOk(sub, sent, true)
    ensures SubscriberOk(Pushed(sub, sent[|sent| - 1]), sent, false)
  {
    var msg := sent[|sent| - 1];
    assert (sub.events + [Offered(msg)])[..|sub.events|] == sub.events;
    assert sent[sub.joinedAt..] == sent[sub.joinedAt..|sent| - 1] + [msg];
  }

  lemma TakenOk(sub: Subscriber, sent: seq<string>, waiting: bool)
    requires SubscriberOk(sub, sent, waiting) && sub.queue != []
    ensures SubscriberOk(TakenFrom(sub), sent, waiting)
  {
    assert (sub.events + [Taken])[..|sub.events|] == sub.events;
  }

  lemma BeginOk(sub: Subscriber, sent: seq<string>, msg: string)
    requires SubscriberOk(sub, sent, false)
    ensures SubscriberOk(sub, sent + [msg], true)
  {
    assert (sent + [msg])[sub.joinedAt..|sent|] == sent[sub.joinedAt..];
  }

  lemma JoinOk(sent: seq<string>)
    ensures SubscriberOk(Subscriber([], [], [], |sent|), sent, false)
  {
  }

  lemma StepKeepsSubscriber(s: State, step: Step, uid: string)
    requires Inv(s) && Enabled(s, step) && uid in Next(s, step).subscribers
    ensures var s' := Next(s, step); SubscriberOk(s'.subscribers[uid], s'.sent, uid in s'.todo)
  {
    match step
    case Join(u) => if uid == u { JoinOk(s.sent); }
    case Leave(_) =>
    case Begin(msg) => BeginOk(s.subscribers[uid], s.sent, msg);
    case Push(u) => if uid == u { PushedOk(s.subscribers[uid], s.sent); }
    case End =>
    case Take(u) => if uid == u { TakenOk(s.subscribers[uid], s.sent, uid in s.todo); }
  }

  lemma StepKeepsInv(s: State, step: Step)
    requires Inv(s) && Enabled(s, step)
    ensures Inv(Next(s, step))
  {
    forall uid | uid in Next(s, step).subscribers
      ensures SubscriberOk(Next(s, step).subscribers[uid], Next(s, step).sent, uid in Next(s, step).todo)
    {
      StepKeepsSubscriber(s, step, uid);
    }
  }

  const INITIAL := State(map[], None, {}, [])

  ghost predicate IsRun(run: seq<State>) {
    && run != [] && run[0] == INITIAL
    && forall i | 0 < i < |run| :: Follows(run[i - 1], run[i])
  }

  ghost predicate Follows(s: State, s': State) {
    exists step :: Enabled(s, step) && Next(s, step) == s'
  }

  lemma {:induction false} RunsKeepInv(run: seq<State>)
    requires IsRun(run)
    ensures Inv(run[|run| - 1])
  {
    if |run| > 1 {
      var front := run[..|run| - 1];
      assert forall i | 0 < i < |front| :: Follows(front[i - 1], front[i]) by {
        forall i | 0 < i < |front| ensures Follows(front[i - 1], front[i]) {
          assert Follows(run[i - 1], run[i]);
        }
      }
      RunsKeepInv(front);
      assert Follows(run[|run| - 2], run[|run| - 1]);
      var step :| Enabled(run[|run| - 2], step) && Next(run[|run| - 2], step) == run[|run| - 1];
      StepKeepsInv(run[|run| - 2], step);
    }
  }

  /** The messages sent since a subscriber joined, up to one that is still on its way to it. */
  function SentSinceJoin(s: State, uid: string): seq<string>
    requires uid in s.subscribers
  {
    var sub := s.subscribers[uid];
    var until := |s.sent| - if uid in s.todo then 1 else 0;
    if sub.joinedAt <= until then s.sent[sub.joinedAt..until] else []
  }

  /** In every reachable state and for every subscriber: what it was written and what is queued is
      an in-order subsequence of what was sent since it joined, and the queue is within its bound. */
  lemma DeliveredInOrder(run: seq<State>, uid: string) returns (ns: seq<nat>)
    requires IsRun(run) && uid in run[|run| - 1].subscribers
    ensures var s := run[|run| - 1]; var sub := s.subscribers[uid];
            && |sub.queue| <= CAPACITY
            && Picks(sub.written + sub.queue, SentSinceJoin(s, uid), ns)
            && ns == Accepted(sub.events)
  {
    RunsKeepInv(run);
    var sub := run[|run| - 1].subscribers[uid];
    InOrder(sub.events);
    ns := Accepted(sub.events);
  }

  /** A message sent since it joined is missing exactly if its queue was full when it was offered. */
  lemma MissingWasOfferedToFullQueue(run: seq<State>, uid: string, k: nat) returns (at: nat)
    requires IsRun(run) && uid in run[|run| - 1].subscribers && k < |SentSinceJoin(run[|run| - 1], uid)|
    ensures var s := run[|run| - 1]; var sub := s.subscribers[uid];
            && OfferedAt(sub.events, k, at) && sub.events[at].msg == SentSinceJoin(s, uid)[k]
            && (k !in Accepted(sub.events) <==> |Queue(sub.events[..at])| == CAPACITY)
  {
    RunsKeepInv(run);
    at := MissingExactlyWhenFull(run[|run| - 1].subscribers[uid].events, k);
  }
}
