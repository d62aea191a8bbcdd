/** Two publishers of one event stream per task.  The in-process one keeps a queue per subscriber and
    replays the drain at registration; the Redis one keeps an append-only stream and a cursor per
    subscriber.  Publishing, registering, reading and leaving interleave freely. */
module SseDelivery {
  import opened TaskEvents
  import opened Text

  type TaskId = nat
  type SubId = nat

  /** What a queue holds: an event, or the sentinel that ends the subscription. */
  datatype Item = Item(event: TaskEvent) | Sentinel

  datatype Phase = Reading | Finished | Left

  /** One subscription: its queue, what it has yielded, and how long the log was when it joined. */
  datatype Subscription = Subscription(task: TaskId, queue: seq<Item>, yielded: seq<TaskEvent>, joined: nat,
                                       phase: Phase)

  datatype Hub = Hub(
    drain: map<TaskId, seq<TaskEvent>>,    // every event published so far, per task
    completed: set<TaskId>,
    queues: map<TaskId, seq<SubId>>,       // the registered subscriptions, per task
    subs: map<SubId, Subscription>
  )

  datatype Step =
    | PublishEvent(task: TaskId, event: TaskEvent)
    | Subscribe(id: SubId, to: TaskId)
    | Read(id: SubId)
    | Leave(id: SubId)

  function Log(h: Hub, t: TaskId): seq<TaskEvent> {
    if t in h.drain then h.drain[t] else []
  }

  function Registered(h: Hub, t: TaskId): seq<SubId> {
    if t in h.queues then h.queues[t] else []
  }

  function Items(log: seq<TaskEvent>): (items: seq<Item>)
    ensures |items| == |log| && forall i :: 0 <= i < |log| ==> items[i] == Item(log[i])
  {
    if log == [] then [] else Items(log[..|log| - 1]) + [Item(log[|log| - 1])]
  }

  function SentinelIf(completed: bool): seq<Item> {
    if completed then [Sentinel] else []
  }

  /** Append to the log, mark completion, and put the event (and the sentinel) on every queue. */
  function PublishTo(h: Hub, t: TaskId, e: TaskEvent): Hub {
    var completed := if IsTerminal(e) then h.completed + {t} else h.completed;
    var put := [Item(e)] + SentinelIf(t in completed);
    h.(drain := h.drain[t := Log(h, t) + [e]], completed := completed,
       subs := map id | id in h.subs ::
         if id in Registered(h, t) then h.subs[id].(queue := h.subs[id].queue + put) else h.subs[id])
  }

  /** Register a new queue holding the drain, and the sentinel when the task is already complete. */
  function SubscribeTo(h: Hub, id: SubId, t: TaskId): Hub {
    h.(queues := h.queues[t := Registered(h, t) + [id]],
       subs := h.subs[id := Subscription(t, Items(Log(h, t)) + SentinelIf(t in h.completed), [], |Log(h, t)|, Reading)])
  }

  function RemoveId(ids: seq<SubId>, id: SubId): (r: seq<SubId>)
    ensures id !in ids ==> r == ids
    ensures forall x :: x != id ==> (x in r <==> x in ids)
    ensures |r| == |ids| - if id in ids then 1 else 0
  {
    if ids == [] then [] else if ids[0] == id then ids[1..] else [ids[0]] + RemoveId(ids[1..], id)
  }

  /** Take the subscription's queue out of the registry; what remains of it is sub. */
  function Unregister(h: Hub, id: SubId, sub: Subscription): Hub {
    h.(queues := h.queues[sub.task := RemoveId(Registered(h, sub.task), id)], subs := h.subs[id := sub])
  }

  /** Take the first item: an event is yielded, the sentinel ends the subscription. */
  function ReadFrom(h: Hub, id: SubId): Hub
    requires id in h.subs && h.subs[id].queue != []
  {
    var sub := h.subs[id];
    var rest := sub.(queue := sub.queue[1..]);
    match sub.queue[0]
    case Item(e) => h.(subs := h.subs[id := rest.(yielded := sub.yielded + [e])])
    case Sentinel => Unregister(h, id, rest.(phase := Finished))
  }

  /** One step; a step that is not possible changes nothing. */
  function Next(h: Hub, step: Step): Hub {
    match step
    case PublishEvent(t, e) => PublishTo(h, t, e)
    case Subscribe(id, t) => if id in h.subs then h else SubscribeTo(h, id, t)
    case Read(id) =>
      if id in h.subs && h.subs[id].phase == Reading && h.subs[id].queue != [] then ReadFrom(h, id) else h
    case Leave(id) =>
      if id in h.subs && h.subs[id].phase == Reading then Unregister(h, id, h.subs[id].(phase := Left)) else h
  }

  const EMPTY_HUB: Hub := Hub(map[], {}, map[], map[])

  function RunHub(steps: seq<Step>): Hub {
    if steps == [] then EMPTY_HUB else Next(RunHub(steps[..|steps| - 1]), steps[|steps| - 1])
  }

  // ---------------------------------------------------------------- the reference: one item stream per subscriber

  ghost predicate HasTerminal(log: seq<TaskEvent>) {
    exists i :: 0 <= i < |log| && IsTerminal(log[i])
  }

  /** The position of the first terminal event, or the length of the log. */
  function FirstTerminal(log: seq<TaskEvent>): (k: nat)
    ensures k <= |log| && (k < |log| ==> IsTerminal(log[k]))
    ensures forall i :: 0 <= i < k ==> !IsTerminal(log[i])
    ensures HasTerminal(log) <==> k < |log|
  {
    if log == [] then 0
    else
      var k := FirstTerminal(log[..|log| - 1]);
      if k < |log| - 1 then
        assert log[..|log| - 1][k] == log[k];
        k
      else if IsTerminal(log[|log| - 1]) then |log| - 1 else |log|
  }

  /** Everything ever put on the queue of a subscriber that joined when the log had this length. */
  function PutSoFar(log: seq<TaskEvent>, joined: nat): seq<Item>
    requires joined <= |log|
    decreases |log|
  {
    var sentinel := SentinelIf(FirstTerminal(log) < |log|);
    if |log| == joined then Items(log) + sentinel
    else PutSoFar(log[..|log| - 1], joined) + ([Item(log[|log| - 1])] + sentinel)
  }

  /** How much of the log comes before the first sentinel. */
  function Cut(log: seq<TaskEvent>, joined: nat): nat {
    if joined <= FirstTerminal(log) then FirstTerminal(log) + 1 else joined
  }

  /** Without a terminal event there is no sentinel; with one, exactly the cut of the log precedes it. */
  lemma {:induction false} PutShape(log: seq<TaskEvent>, joined: nat)
    requires joined <= |log|
    ensures FirstTerminal(log) == |log| ==> PutSoFar(log, joined) == Items(log)
    ensures FirstTerminal(log) < |log| ==>
              var c := Cut(log, joined);
              c <= |log| && Items(log[..c]) + [Sentinel] <= PutSoFar(log, joined)
    decreases |log|
  {
    if |log| == joined {
      if FirstTerminal(log) < |log| {
        assert log[..joined] == log;
      }
    } else {
      var init, last := log[..|log| - 1], log[|log| - 1];
      PutShape(init, joined);
      if FirstTerminal(init) < |init| {
        var c := Cut(init, joined);
        assert FirstTerminal(log) == FirstTerminal(init) && Cut(log, joined) == c && init[..c] == log[..c];
      } else if IsTerminal(last) {
        assert log[..|log|] == log;
        assert Items(init) + ([Item(last)] + [Sentinel]) == Items(log) + [Sentinel];
      }
    }
  }

  // ---------------------------------------------------------------- what every interleaving keeps

  ghost predicate NoDuplicates(ids: seq<SubId>) {
    forall i, j :: 0 <= i < j < |ids| ==> ids[i] != ids[j]
  }

  ghost predicate Over(log: seq<TaskEvent>) {
    FirstTerminal(log) < |log|
  }

  /** One subscription against its task's log. */
  ghost predicate SubOk(log: seq<TaskEvent>, sub: Subscription) {
    && sub.joined <= |log|
    && (sub.phase == Reading ==> Items(sub.yielded) + sub.queue == PutSoFar(log, sub.joined))
    && (sub.phase == Finished ==>
          Over(log) && Cut(log, sub.joined) <= |log| && sub.yielded == log[..Cut(log, sub.joined)])
    && (sub.phase == Left ==> sub.yielded <= log)
  }

  ghost predicate ReadingOf(h: Hub, t: TaskId, id: SubId) {
    id in h.subs && h.subs[id].task == t && h.subs[id].phase == Reading
  }

  ghost predicate CompletedOk(h: Hub) {
    forall t :: t in h.completed <==> Over(Log(h, t))
  }

  ghost predicate RegistryOk(h: Hub) {
    && (forall t :: NoDuplicates(Registered(h, t)))
    && (forall t, id :: id in Registered(h, t) <==> ReadingOf(h, t, id))
  }

  ghost predicate SubsOk(h: Hub) {
    forall id :: id in h.subs ==> SubOk(Log(h, h.subs[id].task), h.subs[id])
  }

  ghost predicate HubOk(h: Hub) {
    CompletedOk(h) && RegistryOk(h) && SubsOk(h)
  }

  lemma LogAppended(log: seq<TaskEvent>, e: TaskEvent, joined: nat)
    requires joined <= |log|
    ensures Over(log + [e]) <==> Over(log) || IsTerminal(e)
    ensures PutSoFar(log + [e], joined) == PutSoFar(log, joined) + ([Item(e)] + SentinelIf(Over(log + [e])))
    ensures Over(log) ==> Cut(log + [e], joined) == Cut(log, joined) <= |log|
  {
    assert (log + [e])[..|log|] == log;
  }

  /** A publish keeps a subscription of the task in step with the longer log. */
  lemma ReceiveKeeps(log: seq<TaskEvent>, e: TaskEvent, sub: Subscription)
    requires SubOk(log, sub)
    ensures sub.phase == Reading ==>
              SubOk(log + [e], sub.(queue := sub.queue + ([Item(e)] + SentinelIf(Over(log + [e])))))
    ensures sub.phase != Reading ==> SubOk(log + [e], sub)
  {
    LogAppended(log, e, sub.joined);
    var put := [Item(e)] + SentinelIf(Over(log + [e]));
    hide PutSoFar, FirstTerminal, Items, Over;
    if sub.phase == Reading {
      Assoc(Items(sub.yielded), sub.queue, put);
    } else if sub.phase == Finished {
      var c := Cut(log, sub.joined);
      assert (log + [e])[..c] == log[..c];
    }
  }

  /** What a publish makes of one subscription. */
  lemma PublishedSub(h: Hub, t: TaskId, e: TaskEvent, id: SubId)
    requires CompletedOk(h) && RegistryOk(h) && id in h.subs
    ensures var sub, r := h.subs[id], PublishTo(h, t, e);
            && id in r.subs
            && Log(r, sub.task) == (if sub.task == t then Log(h, t) + [e] else Log(h, sub.task))
            && r.subs[id] == if sub.task == t && sub.phase == Reading
                             then sub.(queue := sub.queue + ([Item(e)] + SentinelIf(Over(Log(h, t) + [e]))))
                             else sub
  {
    LogAppended(Log(h, t), e, 0);
    hide PutSoFar, FirstTerminal, Items, Over, NoDuplicates;
    assert t in h.completed <==> Over(Log(h, t));
    assert id in Registered(h, t) <==> ReadingOf(h, t, id);
  }

  lemma PublishKeepsSubs(h: Hub, t: TaskId, e: TaskEvent)
    requires HubOk(h)
    ensures SubsOk(PublishTo(h, t, e))
  {
    var r := PublishTo(h, t, e);
    assert r.subs.Keys == h.subs.Keys;
    assert SubsOk(h);
    hide SubOk, PublishTo, Log;
    forall id | id in r.subs ensures SubOk(Log(r, r.subs[id].task), r.subs[id]) {
      var sub := h.subs[id];
      assert SubOk(Log(h, sub.task), sub);
      PublishedSub(h, t, e, id);
      if sub.task == t {
        ReceiveKeeps(Log(h, t), e, sub);
      }
    }
  }

  lemma PublishKeepsRegistry(h: Hub, t: TaskId, e: TaskEvent)
    requires RegistryOk(h)
    ensures RegistryOk(PublishTo(h, t, e))
  {
    hide NoDuplicates;
    var r := PublishTo(h, t, e);
    forall u ensures NoDuplicates(Registered(r, u)) {
      assert NoDuplicates(Registered(h, u));
    }
    forall u, id ensures id in Registered(r, u) <==> ReadingOf(r, u, id) {
      assert id in Registered(h, u) <==> ReadingOf(h, u, id);
    }
  }

  lemma PublishKeepsCompleted(h: Hub, t: TaskId, e: TaskEvent)
    requires CompletedOk(h)
    ensures CompletedOk(PublishTo(h, t, e))
  {
    LogAppended(Log(h, t), e, 0);
    hide PutSoFar, FirstTerminal, Items, Over;
    var r := PublishTo(h, t, e);
    forall u ensures u in r.completed <==> Over(Log(r, u)) {
      assert u in h.completed <==> Over(Log(h, u));
    }
  }

  lemma PublishKeeps(h: Hub, t: TaskId, e: TaskEvent)
    requires HubOk(h)
    ensures HubOk(PublishTo(h, t, e))
  {
    hide CompletedOk, SubsOk, RegistryOk, PublishTo;
    PublishKeepsSubs(h, t, e);
    PublishKeepsRegistry(h, t, e);
    PublishKeepsCompleted(h, t, e);
  }

  lemma FreshSubOk(log: seq<TaskEvent>, t: TaskId)
    ensures SubOk(log, Subscription(t, Items(log) + SentinelIf(Over(log)), [], |log|, Reading))
  {
    var queue := Items(log) + SentinelIf(Over(log));
    assert Items([]) + queue == queue;
  }

  lemma SubscribeKeeps(h: Hub, id: SubId, t: TaskId)
    requires HubOk(h) && id !in h.subs
    ensures HubOk(SubscribeTo(h, id, t))
  {
    FreshSubOk(Log(h, t), t);
    ExtendDistinct(Registered(h, t), id);
    hide SubOk, PutSoFar, FirstTerminal, Items, Over, NoDuplicates;
    var r := SubscribeTo(h, id, t);
    assert t in h.completed <==> Over(Log(h, t));
    assert id in Registered(h, t) <==> ReadingOf(h, t, id);
    assert NoDuplicates(Registered(h, t));
    forall x | x in r.subs ensures SubOk(Log(r, r.subs[x].task), r.subs[x]) {
      if x != id {
        assert SubOk(Log(h, h.subs[x].task), h.subs[x]);
      }
    }
    forall u ensures u in r.completed <==> Over(Log(r, u)) {
      assert u in h.completed <==> Over(Log(h, u));
    }
    forall u ensures NoDuplicates(Registered(r, u)) {
      assert NoDuplicates(Registered(h, u));
    }
    forall u, x ensures x in Registered(r, u) <==> ReadingOf(r, u, x) {
      assert x in Registered(h, u) <==> ReadingOf(h, u, x);
    }
  }

  lemma ExtendDistinct(ids: seq<SubId>, id: SubId)
    ensures NoDuplicates(ids) && id !in ids ==> NoDuplicates(ids + [id])
  {
  }

  lemma {:induction false} RemoveKeepsDistinct(ids: seq<SubId>, id: SubId)
    requires NoDuplicates(ids)
    ensures NoDuplicates(RemoveId(ids, id)) && id !in RemoveId(ids, id)
  {
    if ids != [] {
      if ids[0] == id {
        assert forall i :: 0 < i < |ids| ==> ids[i] != ids[0];
      } else {
        RemoveKeepsDistinct(ids[1..], id);
        var r := RemoveId(ids[1..], id);
        assert ids[0] !in ids[1..];
        assert ids[0] !in r;
      }
    }
  }

  /** Replacing one subscription by another of the same task in the same phase. */
  lemma ReplaceKeeps(h: Hub, id: SubId, sub: Subscription)
    requires HubOk(h) && id in h.subs && sub.task == h.subs[id].task && sub.phase == h.subs[id].phase
    requires SubOk(Log(h, sub.task), sub)
    ensures HubOk(h.(subs := h.subs[id := sub]))
  {
    hide SubOk, PutSoFar, FirstTerminal, Items, Over, NoDuplicates;
    var r := h.(subs := h.subs[id := sub]);
    forall x | x in r.subs ensures SubOk(Log(r, r.subs[x].task), r.subs[x]) {
      if x != id {
        assert SubOk(Log(h, h.subs[x].task), h.subs[x]);
      }
    }
    forall u ensures u in r.completed <==> Over(Log(r, u)) {
      assert u in h.completed <==> Over(Log(h, u));
    }
    forall u ensures NoDuplicates(Registered(r, u)) {
      assert NoDuplicates(Registered(h, u));
    }
    forall u, x ensures x in Registered(r, u) <==> ReadingOf(r, u, x) {
      assert x in Registered(h, u) <==> ReadingOf(h, u, x);
    }
  }

  /** Ending a reading subscription that meets its obligation in the new phase. */
  lemma UnregisterKeeps(h: Hub, id: SubId, sub: Subscription)
    requires HubOk(h) && id in h.subs && h.subs[id].phase == Reading
    requires sub.task == h.subs[id].task && sub.phase != Reading && SubOk(Log(h, sub.task), sub)
    ensures HubOk(Unregister(h, id, sub))
  {
    hide SubOk, PutSoFar, FirstTerminal, Items, Over, NoDuplicates;
    var t, r := sub.task, Unregister(h, id, sub);
    assert NoDuplicates(Registered(h, t));
    RemoveKeepsDistinct(Registered(h, t), id);
    forall x | x in r.subs ensures SubOk(Log(r, r.subs[x].task), r.subs[x]) {
      if x != id {
        assert SubOk(Log(h, h.subs[x].task), h.subs[x]);
      }
    }
    forall u ensures u in r.completed <==> Over(Log(r, u)) {
      assert u in h.completed <==> Over(Log(h, u));
    }
    forall u ensures NoDuplicates(Registered(r, u)) {
      assert NoDuplicates(Registered(h, u));
    }
    forall u, x ensures x in Registered(r, u) <==> ReadingOf(r, u, x) {
      assert x in Registered(h, u) <==> ReadingOf(h, u, x);
    }
  }

  /** Two ways of reading one stream of items: what was taken plus the queue, and a stem up to the first sentinel. */
  lemma StemRead(taken: seq<TaskEvent>, queue: seq<Item>, stem: seq<TaskEvent>, put: seq<Item>)
    requires Items(taken) + queue == put && Items(stem) + [Sentinel] <= put
    ensures taken <= stem
    ensures queue != [] && queue[0] == Sentinel ==> taken == stem
  {
    assert forall i :: 0 <= i < |taken| ==> put[i] == Item(taken[i]);
    assert forall i :: 0 <= i < |stem| ==> put[i] == Item(stem[i]);
    assert put[|stem|] == Sentinel;
    assert |taken| <= |stem|;
    forall i | 0 <= i < |taken| ensures taken[i] == stem[i] {
      assert put[i] == Item(taken[i]);
    }
    assert queue != [] ==> put[|taken|] == queue[0];
  }

  /** The sentinel is found exactly at the cut. */
  lemma SentinelAtCut(log: seq<TaskEvent>, joined: nat, yielded: seq<TaskEvent>, queue: seq<Item>)
    requires joined <= |log| && queue != [] && queue[0] == Sentinel
    requires Items(yielded) + queue == PutSoFar(log, joined)
    ensures Over(log) && Cut(log, joined) <= |log| && yielded == log[..Cut(log, joined)]
  {
    PutShape(log, joined);
    var put := PutSoFar(log, joined);
    assert put[|yielded|] == Sentinel;
    assert Over(log);
    StemRead(yielded, queue, log[..Cut(log, joined)], put);
  }

  lemma ItemsAppended(log: seq<TaskEvent>, e: TaskEvent)
    ensures Items(log + [e]) == Items(log) + [Item(e)]
  {
    assert (log + [e])[..|log|] == log;
  }

  /** Taking an event off the queue. */
  lemma TakeKeepsSub(log: seq<TaskEvent>, sub: Subscription)
    requires SubOk(log, sub) && sub.phase == Reading && sub.queue != [] && sub.queue[0].Item?
    ensures SubOk(log, sub.(queue := sub.queue[1..], yielded := sub.yielded + [sub.queue[0].event]))
  {
    var e, rest := sub.queue[0].event, sub.queue[1..];
    ItemsAppended(sub.yielded, e);
    Assoc(Items(sub.yielded), [Item(e)], rest);
    assert sub.queue == [Item(e)] + rest;
    hide PutSoFar, FirstTerminal, Items, Over, Cut;
  }

  /** Taking the sentinel off the queue. */
  lemma EndKeepsSub(log: seq<TaskEvent>, sub: Subscription)
    requires SubOk(log, sub) && sub.phase == Reading && sub.queue != [] && sub.queue[0] == Sentinel
    ensures SubOk(log, sub.(queue := sub.queue[1..], phase := Finished))
  {
    hide PutSoFar, FirstTerminal, Items, Over, Cut;
    SentinelAtCut(log, sub.joined, sub.yielded, sub.queue);
  }

  lemma ReadKeeps(h: Hub, id: SubId)
    requires HubOk(h) && id in h.subs && h.subs[id].phase == Reading && h.subs[id].queue != []
    ensures HubOk(ReadFrom(h, id))
  {
    var sub := h.subs[id];
    var log := Log(h, sub.task);
    assert SubOk(log, sub);
    hide SubOk, HubOk, Log, Unregister;
    match sub.queue[0]
    case Sentinel =>
      EndKeepsSub(log, sub);
      UnregisterKeeps(h, id, sub.(queue := sub.queue[1..], phase := Finished));
    case Item(e) =>
      TakeKeepsSub(log, sub);
      ReplaceKeeps(h, id, sub.(queue := sub.queue[1..], yielded := sub.yielded + [e]));
  }

  /** What a reader has yielded is a prefix of the log. */
  lemma YieldedPrefix(log: seq<TaskEvent>, sub: Subscription)
    requires SubOk(log, sub)
    ensures sub.yielded <= log
  {
    if sub.phase == Reading {
      var put := PutSoFar(log, sub.joined);
      PutShape(log, sub.joined);
      hide PutSoFar, FirstTerminal;
      if Over(log) {
        StemRead(sub.yielded, sub.queue, log[..Cut(log, sub.joined)], put);
      } else {
        StemRead(sub.yielded, sub.queue + [Sentinel], log, put + [Sentinel]);
      }
    }
  }

  lemma LeaveKeeps(h: Hub, id: SubId)
    requires HubOk(h) && id in h.subs && h.subs[id].phase == Reading
    ensures HubOk(Unregister(h, id, h.subs[id].(phase := Left)))
  {
    var sub := h.subs[id];
    var log := Log(h, sub.task);
    assert SubOk(log, sub);
    YieldedPrefix(log, sub);
    hide PutSoFar, FirstTerminal, Items, Over, HubOk, Cut;
    UnregisterKeeps(h, id, sub.(phase := Left));
  }

  lemma NextKeeps(h: Hub, step: Step)
    requires HubOk(h)
    ensures HubOk(Next(h, step))
  {
    hide HubOk, PublishTo, SubscribeTo, ReadFrom, Unregister;
    match step
    case PublishEvent(t, e) => PublishKeeps(h, t, e);
    case Subscribe(id, t) => if id !in h.subs { SubscribeKeeps(h, id, t); }
    case Read(id) => if id in h.subs && h.subs[id].phase == Reading && h.subs[id].queue != [] { ReadKeeps(h, id); }
    case Leave(id) => if id in h.subs && h.subs[id].phase == Reading { LeaveKeeps(h, id); }
  }

  lemma {:induction false} EveryRunOk(steps: seq<Step>)
    ensures HubOk(RunHub(steps))
  {
    if steps != [] {
      hide HubOk, Next;
      EveryRunOk(steps[..|steps| - 1]);
      NextKeeps(RunHub(steps[..|steps| - 1]), steps[|steps| - 1]);
    }
  }

  // ---------------------------------------------------------------- what a subscriber receives

  /** The events published for one task, in order. */
  function Published(steps: seq<Step>, t: TaskId): seq<TaskEvent> {
    if steps == [] then []
    else
      var before := Published(steps[..|steps| - 1], t);
      match steps[|steps| - 1]
      case PublishEvent(u, e) => if u == t then before + [e] else before
      case _ => before
  }

  /** The log is the publishing history, whatever else was interleaved. */
  lemma {:induction false} LogIsPublished(steps: seq<Step>, t: TaskId)
    ensures Log(RunHub(steps), t) == Published(steps, t)
  {
    if steps != [] {
      LogIsPublished(steps[..|steps| - 1], t);
    }
  }

  /** The events of an item stream. */
  function EventsIn(items: seq<Item>): seq<TaskEvent> {
    if items == [] then []
    else if items[0].Item? then [items[0].event] + EventsIn(items[1..])
    else EventsIn(items[1..])
  }

  lemma {:induction false} EventsInConcat(a: seq<Item>, b: seq<Item>)
    ensures EventsIn(a + b) == EventsIn(a) + EventsIn(b)
  {
    if a == [] {
      assert a + b == b;
    } else {
      assert (a + b)[0] == a[0] && (a + b)[1..] == a[1..] + b;
      EventsInConcat(a[1..], b);
    }
  }

  lemma {:induction false} EventsInItems(log: seq<TaskEvent>)
    ensures EventsIn(Items(log)) == log
  {
    if log != [] {
      EventsInItems(log[..|log| - 1]);
      EventsInConcat(Items(log[..|log| - 1]), [Item(log[|log| - 1])]);
    }
  }

  lemma {:induction false} EventsPut(log: seq<TaskEvent>, joined: nat)
    requires joined <= |log|
    ensures EventsIn(PutSoFar(log, joined)) == log
    decreases |log|
  {
    var sentinel := SentinelIf(FirstTerminal(log) < |log|);
    if |log| == joined {
      EventsInItems(log);
      EventsInConcat(Items(log), sentinel);
    } else {
      var init := log[..|log| - 1];
      EventsPut(init, joined);
      EventsInConcat(PutSoFar(init, joined), [Item(log[|log| - 1])] + sentinel);
      EventsInConcat([Item(log[|log| - 1])], sentinel);
    }
  }

  /** No gap, no duplicate, no reordering: at every moment of every interleaving, what a reading
      subscriber has yielded followed by the events on its queue is the task's whole published log. */
  lemma NothingLostNothingRepeated(steps: seq<Step>, id: SubId)
    requires id in RunHub(steps).subs && RunHub(steps).subs[id].phase == Reading
    ensures var sub := RunHub(steps).subs[id];
            sub.yielded + EventsIn(sub.queue) == Published(steps, sub.task)
  {
    EveryRunOk(steps);
    var sub := RunHub(steps).subs[id];
    LogIsPublished(steps, sub.task);
    var log := Published(steps, sub.task);
    assert SubOk(log, sub);
    EventsPut(log, sub.joined);
    EventsInConcat(Items(sub.yielded), sub.queue);
    EventsInItems(sub.yielded);
  }

  /** A subscription that ends by itself has yielded the first terminal event, and the log up to its cut. */
  lemma FinishedAtTheCut(steps: seq<Step>, id: SubId)
    requires id in RunHub(steps).subs && RunHub(steps).subs[id].phase == Finished
    ensures var sub := RunHub(steps).subs[id];
            var log := Published(steps, sub.task);
            && sub.yielded <= log && FirstTerminal(log) < |sub.yielded|
            && |sub.yielded| == if sub.joined <= FirstTerminal(log) then FirstTerminal(log) + 1 else sub.joined
  {
    EveryRunOk(steps);
    var sub := RunHub(steps).subs[id];
    LogIsPublished(steps, sub.task);
    assert SubOk(Published(steps, sub.task), sub);
  }

  /** Once the task is over, a reading subscriber always has something to read: none waits for ever. */
  lemma ReaderNeverStuck(steps: seq<Step>, id: SubId)
    requires id in RunHub(steps).subs && RunHub(steps).subs[id].phase == Reading
    ensures var sub := RunHub(steps).subs[id];
            HasTerminal(Published(steps, sub.task)) ==> sub.queue != []
  {
    EveryRunOk(steps);
    var sub := RunHub(steps).subs[id];
    LogIsPublished(steps, sub.task);
    var log := Published(steps, sub.task);
    assert SubOk(log, sub);
    PutShape(log, sub.joined);
    if Over(log) {
      StemRead(sub.yielded, sub.queue, log[..Cut(log, sub.joined)], PutSoFar(log, sub.joined));
    }
  }

  /** The registry holds exactly the subscriptions still reading: whoever left or finished is given no more. */
  lemma RegisteredIffReading(steps: seq<Step>, t: TaskId, id: SubId)
    ensures var h := RunHub(steps);
            id in Registered(h, t) <==> id in h.subs && h.subs[id].task == t && h.subs[id].phase == Reading
  {
    EveryRunOk(steps);
    assert id in Registered(RunHub(steps), t) <==> ReadingOf(RunHub(steps), t, id);
  }

  /** Whoever left early has a prefix of the log. */
  lemma YieldedIsAPrefix(steps: seq<Step>, id: SubId)
    requires id in RunHub(steps).subs
    ensures RunHub(steps).subs[id].yielded <= Published(steps, RunHub(steps).subs[id].task)
  {
    EveryRunOk(steps);
    var sub := RunHub(steps).subs[id];
    LogIsPublished(steps, sub.task);
    YieldedPrefix(Published(steps, sub.task), sub);
  }

  // ---------------------------------------------------------------- the Redis stream

  /** A subscriber of the stream: the cursor is the id of the last entry handled; a batch read from
      the stream is handled entry by entry. */
  datatype StreamReader = StreamReader(task: TaskId, cursor: nat, batch: seq<TaskEvent>, yielded: seq<TaskEvent>,
                                       phase: Phase)

  datatype Streams = Streams(entries: map<TaskId, seq<TaskEvent>>, readers: map<SubId, StreamReader>)

  datatype Action =
    | Fetch(count: nat)     // one XREAD answer: the next count entries after the cursor
    | Handle                // one round of the loop over the batch
    | Abandon

  datatype StreamStep =
    | Append(task: TaskId, event: TaskEvent)
    | Open(id: SubId, to: TaskId)
    | Act(id: SubId, action: Action)

  function Entries(s: Streams, t: TaskId): seq<TaskEvent> {
    if t in s.entries then s.entries[t] else []
  }

  function HandleNext(r: StreamReader): StreamReader
    requires r.batch != []
  {
    var e := r.batch[0];
    if IsTerminal(e) then r.(cursor := r.cursor + 1, batch := [], yielded := r.yielded + [e], phase := Finished)
    else r.(cursor := r.cursor + 1, batch := r.batch[1..], yielded := r.yielded + [e])
  }

  /** One action of a reader; an action that is not possible changes nothing. */
  function NextReader(log: seq<TaskEvent>, r: StreamReader, action: Action): StreamReader {
    if r.phase != Reading then r
    else
      match action
      case Fetch(count) =>
        if r.batch == [] && r.cursor + count <= |log| then r.(batch := log[r.cursor..r.cursor + count]) else r
      case Handle => if r.batch == [] then r else HandleNext(r)
      case Abandon => r.(phase := Left)
  }

  function NextStream(s: Streams, step: StreamStep): Streams {
    match step
    case Append(t, e) => s.(entries := s.entries[t := Entries(s, t) + [e]])
    case Open(id, t) =>
      if id in s.readers then s else s.(readers := s.readers[id := StreamReader(t, 0, [], [], Reading)])
    case Act(id, action) =>
      if id in s.readers then
        s.(readers := s.readers[id := NextReader(Entries(s, s.readers[id].task), s.readers[id], action)])
      else s
  }

  const NO_STREAMS: Streams := Streams(map[], map[])

  function RunStreams(steps: seq<StreamStep>): Streams {
    if steps == [] then NO_STREAMS else NextStream(RunStreams(steps[..|steps| - 1]), steps[|steps| - 1])
  }

  function Appended(steps: seq<StreamStep>, t: TaskId): seq<TaskEvent> {
    if steps == [] then []
    else
      var before := Appended(steps[..|steps| - 1], t);
      match steps[|steps| - 1]
      case Append(u, e) => if u == t then before + [e] else before
      case _ => before
  }

  lemma {:induction false} EntriesAreAppended(steps: seq<StreamStep>, t: TaskId)
    ensures Entries(RunStreams(steps), t) == Appended(steps, t)
  {
    if steps != [] {
      EntriesAreAppended(steps[..|steps| - 1], t);
    }
  }

  /** The reader's part of the invariant: the cursor counts what was yielded, the batch is what follows it. */
  ghost predicate ReaderOk(log: seq<TaskEvent>, r: StreamReader) {
    && r.cursor == |r.yielded|
    && r.yielded + r.batch <= log
    && (r.phase == Finished ==> Over(log) && r.cursor == FirstTerminal(log) + 1)
    && (r.phase != Finished ==> r.cursor <= FirstTerminal(log))
  }

  ghost predicate StreamsOk(s: Streams) {
    forall id :: id in s.readers ==> ReaderOk(Entries(s, s.readers[id].task), s.readers[id])
  }

  lemma AppendKeepsReader(log: seq<TaskEvent>, e: TaskEvent, r: StreamReader)
    requires ReaderOk(log, r)
    ensures ReaderOk(log + [e], r)
  {
    assert (log + [e])[..|log|] == log;
  }

  lemma FetchedIsNext(log: seq<TaskEvent>, yielded: seq<TaskEvent>, count: nat)
    requires yielded <= log && |yielded| + count <= |log|
    ensures yielded + log[|yielded|..|yielded| + count] <= log
  {
    var k := |yielded|;
    assert yielded + log[k..k + count] == log[..k + count];
  }

  lemma HandledIsNext(log: seq<TaskEvent>, yielded: seq<TaskEvent>, batch: seq<TaskEvent>)
    requires yielded + batch <= log && batch != []
    ensures log[|yielded|] == batch[0] && yielded + [batch[0]] <= log && yielded + [batch[0]] + batch[1..] <= log
  {
    assert (yielded + batch)[|yielded|] == batch[0];
    assert yielded + batch == yielded + [batch[0]] + batch[1..];
  }

  lemma ActionKeepsReader(log: seq<TaskEvent>, r: StreamReader, action: Action)
    requires ReaderOk(log, r)
    ensures ReaderOk(log, NextReader(log, r, action)) && NextReader(log, r, action).task == r.task
  {
    if r.phase == Reading {
      match action
      case Fetch(count) =>
        if r.batch == [] && r.cursor + count <= |log| {
          assert r.yielded + r.batch == r.yielded;
          FetchedIsNext(log, r.yielded, count);
        }
      case Handle =>
        if r.batch != [] {
          HandledIsNext(log, r.yielded, r.batch);
          var y := r.yielded + [r.batch[0]];
          assert y + [] == y;
        }
      case Abandon =>
    }
  }

  lemma FreshReaderOk(log: seq<TaskEvent>, t: TaskId)
    ensures ReaderOk(log, StreamReader(t, 0, [], [], Reading))
  {
  }

  lemma StreamStepKeeps(s: Streams, step: StreamStep)
    requires StreamsOk(s)
    ensures StreamsOk(NextStream(s, step))
  {
    hide ReaderOk, FirstTerminal, NextReader;
    var s' := NextStream(s, step);
    match step
    case Append(t, e) =>
      forall id | id in s'.readers ensures ReaderOk(Entries(s', s'.readers[id].task), s'.readers[id]) {
        AppendKeepsReader(Entries(s, s.readers[id].task), e, s.readers[id]);
      }
    case Open(_, t) =>
      FreshReaderOk(Entries(s, t), t);
    case Act(actor, action) =>
      if actor in s.readers {
        ActionKeepsReader(Entries(s, s.readers[actor].task), s.readers[actor], action);
      }
  }

  lemma {:induction false} EveryStreamRunOk(steps: seq<StreamStep>)
    ensures StreamsOk(RunStreams(steps))
  {
    if steps != [] {
      EveryStreamRunOk(steps[..|steps| - 1]);
      StreamStepKeeps(RunStreams(steps[..|steps| - 1]), steps[|steps| - 1]);
    }
  }

  /** However the stream is cut into batches and whenever the reader connects, it yields a prefix of the
      log; it ends exactly at the first terminal event, and until then there is more to fetch. */
  lemma StreamReaderStopsAtFirstTerminal(steps: seq<StreamStep>, id: SubId)
    requires id in RunStreams(steps).readers
    ensures var r := RunStreams(steps).readers[id];
            var log := Appended(steps, r.task);
            && r.yielded <= log
            && (r.phase == Finished ==> HasTerminal(log) && r.yielded == log[..FirstTerminal(log) + 1])
            && (r.phase == Reading && HasTerminal(log) ==> r.batch != [] || r.cursor < |log|)
  {
    EveryStreamRunOk(steps);
    var s, r := RunStreams(steps), RunStreams(steps).readers[id];
    EntriesAreAppended(steps, r.task);
    hide RunStreams, Appended;
    assert ReaderOk(Entries(s, r.task), r);
    ReaderOkMeans(Appended(steps, r.task), r);
  }

  lemma ReaderOkMeans(log: seq<TaskEvent>, r: StreamReader)
    requires ReaderOk(log, r)
    ensures r.yielded <= log
    ensures r.phase == Finished ==> HasTerminal(log) && r.yielded == log[..FirstTerminal(log) + 1]
    ensures r.phase == Reading && HasTerminal(log) ==> r.batch != [] || r.cursor < |log|
  {
    assert r.yielded <= r.yielded + r.batch;
  }

  // ---------------------------------------------------------------- the two publishers together

  /** After both subscriptions to the same log have ended they have delivered the same events exactly
      when the in-process one joined no later than just after the first terminal event. */
  lemma PublishersAgreeIff(steps: seq<Step>, id: SubId, stream: seq<StreamStep>, reader: SubId)
    requires id in RunHub(steps).subs && RunHub(steps).subs[id].phase == Finished
    requires reader in RunStreams(stream).readers && RunStreams(stream).readers[reader].phase == Finished
    requires Published(steps, RunHub(steps).subs[id].task) == Appended(stream, RunStreams(stream).readers[reader].task)
    ensures var sub := RunHub(steps).subs[id];
            sub.yielded == RunStreams(stream).readers[reader].yielded
            <==> sub.joined <= FirstTerminal(Published(steps, sub.task)) + 1
  {
    FinishedAtTheCut(steps, id);
    StreamReaderStopsAtFirstTerminal(stream, reader);
  }

  /** A log that goes on after its terminal event: an in-process subscriber that joins at the end is given
      both events, a reader of the stream only the first. */
  lemma LateJoinerSeesMore(t: TaskId, id: SubId, e: TaskEvent, extra: TaskEvent)
    returns (steps: seq<Step>, stream: seq<StreamStep>)
    requires IsTerminal(e) && !IsTerminal(extra)
    ensures Published(steps, t) == Appended(stream, t) == [e, extra]
    ensures id in RunHub(steps).subs && RunHub(steps).subs[id].phase == Finished
    ensures id in RunStreams(stream).readers && RunStreams(stream).readers[id].phase == Finished
    ensures RunHub(steps).subs[id].yielded == [e, extra] && RunStreams(stream).readers[id].yielded == [e]
  {
    steps := LateJoiner(t, id, e, extra);
    LogIsPublished(steps, t);
    stream := LateReader(t, id, e, extra);
    EntriesAreAppended(stream, t);
  }

  lemma LateLog(t: TaskId, e: TaskEvent, extra: TaskEvent) returns (steps: seq<Step>)
    requires IsTerminal(e)
    ensures var h := RunHub(steps); Log(h, t) == [e, extra] && t in h.completed && h.subs == map[]
  {
    assert RunHub([]) == EMPTY_HUB;
    steps := Push([], PublishEvent(t, e));
    hide RunHub, IsTerminal;
    var h := RunHub(steps);
    assert Log(h, t) == [e] && t in h.completed && h.subs == map[];
    steps := Push(steps, PublishEvent(t, extra));
  }

  lemma LateJoiner(t: TaskId, id: SubId, e: TaskEvent, extra: TaskEvent) returns (steps: seq<Step>)
    requires IsTerminal(e)
    ensures Log(RunHub(steps), t) == [e, extra]
    ensures id in RunHub(steps).subs && RunHub(steps).subs[id] == Subscription(t, [], [e, extra], 2, Finished)
  {
    hide RunHub, IsTerminal, Items, Log;
    steps := LateLog(t, e, extra);
    LateSubscription(RunHub(steps), t, id, e, extra);
    steps := Push(steps, Subscribe(id, t));
    hide Next;
    OneRead(RunHub(steps), id);
    steps := Push(steps, Read(id));
    OneRead(RunHub(steps), id);
    steps := Push(steps, Read(id));
    OneRead(RunHub(steps), id);
    steps := Push(steps, Read(id));
  }

  lemma LateSubscription(h: Hub, t: TaskId, id: SubId, e: TaskEvent, extra: TaskEvent)
    requires Log(h, t) == [e, extra] && t in h.completed && h.subs == map[]
    ensures var r := Next(h, Subscribe(id, t));
            Log(r, t) == [e, extra] && id in r.subs
            && r.subs[id] == Subscription(t, [Item(e), Item(extra), Sentinel], [], 2, Reading)
  {
    ItemsAppended([e], extra);
    ItemsAppended([], e);
  }

  lemma OneRead(h: Hub, id: SubId)
    requires id in h.subs && h.subs[id].phase == Reading && h.subs[id].queue != []
    ensures var sub, r := h.subs[id], Next(h, Read(id));
            var rest := sub.(queue := sub.queue[1..]);
            && id in r.subs && (forall t :: Log(r, t) == Log(h, t))
            && r.subs[id] == match sub.queue[0]
                             case Item(e) => rest.(yielded := sub.yielded + [e])
                             case Sentinel => rest.(phase := Finished)
  {
  }

  lemma LateReader(t: TaskId, id: SubId, e: TaskEvent, extra: TaskEvent) returns (stream: seq<StreamStep>)
    requires IsTerminal(e)
    ensures Entries(RunStreams(stream), t) == [e, extra]
    ensures id in RunStreams(stream).readers && RunStreams(stream).readers[id] == StreamReader(t, 1, [], [e], Finished)
  {
    stream := PushStream([], Append(t, e));
    stream := PushStream(stream, Append(t, extra));
    stream := PushStream(stream, Open(id, t));
    hide RunStreams, IsTerminal;
    stream := PushStream(stream, Act(id, Fetch(2)));
    var r := RunStreams(stream).readers[id];
    assert r == StreamReader(t, 0, [e, extra], [], Reading);
    stream := PushStream(stream, Act(id, Handle));
  }

  lemma Push(steps: seq<Step>, step: Step) returns (r: seq<Step>)
    ensures RunHub(r) == Next(RunHub(steps), step)
  {
    r := steps + [step];
    assert r[..|steps|] == steps;
  }

  lemma PushStream(steps: seq<StreamStep>, step: StreamStep) returns (r: seq<StreamStep>)
    ensures RunStreams(r) == NextStream(RunStreams(steps), step)
  {
    r := steps + [step];
    assert r[..|steps|] == steps;
  }

  lemma ShapedLogEndsAtItsTerminal(log: seq<TaskEvent>)
    requires LedgerShape(log)
    ensures FirstTerminal(log) == |log| - 1
  {
  }

  /** A log of the shape the orchestrator guarantees is delivered whole by either publisher, whenever
      the subscriber joined and however its reads fell. */
  lemma ShapedLedgerDeliveredWhole(steps: seq<Step>, id: SubId, stream: seq<StreamStep>, reader: SubId)
    requires id in RunHub(steps).subs && reader in RunStreams(stream).readers
    ensures var sub := RunHub(steps).subs[id];
            var log := Published(steps, sub.task);
            sub.phase == Finished && LedgerShape(log) ==> sub.yielded == log
    ensures var r := RunStreams(stream).readers[reader];
            var log := Appended(stream, r.task);
            r.phase == Finished && LedgerShape(log) ==> r.yielded == log
  {
    var sub, r := RunHub(steps).subs[id], RunStreams(stream).readers[reader];
    var log, log' := Published(steps, sub.task), Appended(stream, r.task);
    if sub.phase == Finished && LedgerShape(log) {
      FinishedAtTheCut(steps, id);
      ShapedLogEndsAtItsTerminal(log);
      assert sub.yielded == log[..|sub.yielded|] == log;
    }
    if r.phase == Finished && LedgerShape(log') {
      StreamReaderStopsAtFirstTerminal(stream, reader);
      ShapedLogEndsAtItsTerminal(log');
      assert log'[..|log'|] == log';
    }
  }
}
