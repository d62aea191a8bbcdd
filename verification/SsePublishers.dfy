/** The publishers as they run: fields updated in place, each method proved against a step of SseDelivery. */
module SsePublishers {
  import opened TaskEvents
  import opened SseDelivery

  lemma RegisteredAreKnown(h: Hub, t: TaskId)
    requires HubOk(h)
    ensures NoDuplicates(Registered(h, t)) && forall id :: id in Registered(h, t) ==> id in h.subs
  {
    forall id | id in Registered(h, t) ensures id in h.subs {
      assert ReadingOf(h, t, id);
    }
  }

  /** The in-process publisher.  Each method body runs under the publisher's lock, hence is one step. */
  class InProcessSsePublisher {
    var queues: map<TaskId, seq<SubId>>
    var drain: map<TaskId, seq<TaskEvent>>
    var completed: set<TaskId>
    var subs: map<SubId, Subscription>

    ghost function View(): Hub
      reads this
    {
      Hub(drain, completed, queues, subs)
    }

    /** Every subscription agrees with its task's log, as it does after every interleaving of steps. */
    ghost predicate Valid()
      reads this
    {
      HubOk(View())
    }

    constructor ()
      ensures Valid() && View() == EMPTY_HUB
    {
      queues, drain, completed, subs := map[], map[], {}, map[];
      new;
      EveryRunOk([]);
    }

    method Publish(t: TaskId, e: TaskEvent)
      requires Valid()
      modifies this
      ensures Valid() && View() == Next(old(View()), PublishEvent(t, e))
    {
      hide HubOk;
      ghost var before := View();
      NextKeeps(before, PublishEvent(t, e));
      RegisteredAreKnown(before, t);
      var registered := if t in queues then queues[t] else [];
      drain := drain[t := (if t in drain then drain[t] else []) + [e]];
      if IsTerminal(e) {
        completed := completed + {t};
      }
      PutAll(registered, t, e);
      assert subs == PublishTo(before, t, e).subs;
    }

    /** The loop over the queues: the event, and the sentinel once the task is complete. */
    method PutAll(registered: seq<SubId>, t: TaskId, e: TaskEvent)
      requires NoDuplicates(registered) && forall id :: id in registered ==> id in subs
      modifies `subs
      ensures subs == map id | id in old(subs) ::
                if id in registered
                then old(subs)[id].(queue := old(subs)[id].queue + ([Item(e)] + SentinelIf(t in completed)))
                else old(subs)[id]
    {
      ghost var before, put := subs, [Item(e)] + SentinelIf(t in completed);
      for i := 0 to |registered|
        invariant subs.Keys == before.Keys
        invariant forall id :: id in subs ==>
                    subs[id] == if id in registered[..i] then before[id].(queue := before[id].queue + put)
                                else before[id]
      {
        var id := registered[i];
        assert id in before && id !in registered[..i];
        Put(id, Item(e));
        if t in completed {
          Put(id, Sentinel);
        }
        assert subs[id].queue == before[id].queue + put;
        assert registered[..i + 1] == registered[..i] + [id];
      }
      assert registered[..|registered|] == registered;
    }

    method Put(id: SubId, item: Item)
      requires id in subs
      modifies `subs
      ensures subs == old(subs)[id := old(subs[id]).(queue := old(subs[id].queue) + [item])]
    {
      subs := subs[id := subs[id].(queue := subs[id].queue + [item])];
    }

    /** Register a fresh queue and replay the drain into it. */
    method Open(id: SubId, t: TaskId)
      requires Valid() && id !in subs
      modifies this
      ensures Valid() && View() == Next(old(View()), Subscribe(id, t))
    {
      ghost var before := View();
      hide HubOk;
      NextKeeps(before, Subscribe(id, t));
      queues := queues[t := (if t in queues then queues[t] else []) + [id]];
      var past := if t in drain then drain[t] else [];
      var queue: seq<Item> := [];
      for i := 0 to |past|
        invariant queue == Items(past[..i])
        modifies {}
      {
        queue := queue + [Item(past[i])];
        assert past[..i + 1] == past[..i] + [past[i]];
        ItemsAppended(past[..i], past[i]);
      }
      assert past[..|past|] == past;
      if t in completed {
        queue := queue + [Sentinel];
      }
      assert queue == Items(past) + SentinelIf(t in completed);
      subs := subs[id := Subscription(t, queue, [], |past|, Reading)];
    }

    /** One round of the subscriber's loop: an event to yield, or the end. */
    method Get(id: SubId) returns (item: Item)
      requires Valid() && id in subs && subs[id].phase == Reading && subs[id].queue != []
      modifies this
      ensures item == old(subs[id].queue[0])
      ensures Valid() && View() == Next(old(View()), Read(id))
    {
      hide HubOk;
      NextKeeps(View(), Read(id));
      var sub := subs[id];
      item := sub.queue[0];
      sub := sub.(queue := sub.queue[1..]);
      match item {
        case Item(e) => subs := subs[id := sub.(yielded := sub.yielded + [e])];
        case Sentinel => Remove(id, sub.(phase := Finished));
      }
    }

    /** The subscriber goes away before the end. */
    method Close(id: SubId)
      requires Valid() && id in subs && subs[id].phase == Reading
      modifies this
      ensures Valid() && View() == Next(old(View()), Leave(id))
    {
      hide HubOk;
      NextKeeps(View(), Leave(id));
      Remove(id, subs[id].(phase := Left));
    }

    /** Both ways out take the queue off the registry. */
    method Remove(id: SubId, sub: Subscription)
      modifies this
      ensures View() == Unregister(old(View()), id, sub)
    {
      queues := queues[sub.task := RemoveId(if sub.task in queues then queues[sub.task] else [], id)];
      subs := subs[id := sub];
    }
  }

  /** What a stream held at one read after another. */
  ghost predicate Growing(logs: seq<seq<TaskEvent>>) {
    forall i :: 0 < i < |logs| ==> logs[i - 1] <= logs[i]
  }

  /** As many reads at the end saw the stream as it is now as there are entries in it. */
  ghost predicate Settled(logs: seq<seq<TaskEvent>>)
    requires logs != []
  {
    var last := logs[|logs| - 1];
    |last| <= |logs| && forall i :: |logs| - |last| <= i < |logs| ==> logs[i] == last
  }

  ghost function UpToTerminal(log: seq<TaskEvent>): seq<TaskEvent> {
    if HasTerminal(log) then log[..FirstTerminal(log) + 1] else log
  }

  lemma {:induction false} GrowthKeepsReader(log: seq<TaskEvent>, more: seq<TaskEvent>, r: StreamReader)
    requires ReaderOk(log, r) && log <= more
    ensures ReaderOk(more, r)
    decreases |more|
  {
    if log == more {
    } else {
      var init := more[..|more| - 1];
      GrowthKeepsReader(log, init, r);
      AppendKeepsReader(init, more[|more| - 1], r);
      assert more == init + [more[|more| - 1]];
    }
  }

  lemma {:induction false} GrownToLast(logs: seq<seq<TaskEvent>>, i: nat)
    requires Growing(logs) && i < |logs|
    ensures logs[i] <= logs[|logs| - 1]
    decreases |logs| - i
  {
    if i < |logs| - 1 {
      GrownToLast(logs, i + 1);
      assert logs[i + 1 - 1] <= logs[i + 1];
    }
  }

  lemma CursorWithin(log: seq<TaskEvent>, r: StreamReader)
    requires ReaderOk(log, r)
    ensures r.cursor <= |log|
  {
  }

  lemma YieldedUpToTerminal(log: seq<TaskEvent>, r: StreamReader)
    requires ReaderOk(log, r) && r.batch == []
    ensures r.yielded <= UpToTerminal(log)
    ensures r.phase == Finished ==> HasTerminal(log) && r.yielded == UpToTerminal(log)
    ensures r.phase == Reading && |log| <= r.cursor ==> !HasTerminal(log) && r.yielded == UpToTerminal(log)
  {
    assert r.yielded + r.batch == r.yielded;
  }

  /** One subscription of the Redis publisher: the generator's cursor and what it has yielded. */
  class StreamSubscription {
    const task: TaskId
    var cursor: nat
    var yielded: seq<TaskEvent>
    var finished: bool

    constructor (t: TaskId)
      ensures task == t && cursor == 0 && yielded == [] && !finished
    {
      task, cursor, yielded, finished := t, 0, [], false;
    }

    /** The generator between two reads of the stream. */
    ghost function View(): StreamReader
      reads this
    {
      StreamReader(task, cursor, [], yielded, if finished then Finished else Reading)
    }

    ghost predicate Valid(log: seq<TaskEvent>)
      reads this
    {
      ReaderOk(log, View())
    }

    /** Read after the cursor time and again, from a stream that may have grown at every read, in answers of any
        sizes: what has been yielded is a part of the stream, up to its first terminal event at most, and all of
        that once the stream has settled. */
    method CatchUp(logs: seq<seq<TaskEvent>>, sizes: seq<nat>)
      requires Growing(logs) && |sizes| == |logs| > 0 && forall k :: k in sizes ==> k > 0
      requires Valid(logs[0])
      modifies this
      ensures Valid(logs[|logs| - 1])
      ensures yielded <= UpToTerminal(logs[|logs| - 1])
      ensures finished ==> HasTerminal(logs[|logs| - 1]) && yielded == UpToTerminal(logs[|logs| - 1])
      ensures Settled(logs) ==>
                (finished <==> HasTerminal(logs[|logs| - 1])) && yielded == UpToTerminal(logs[|logs| - 1])
    {
      ghost var last := logs[|logs| - 1];
      var i := 0;
      while !finished && i < |logs|
        invariant i <= |logs| && Valid(logs[if i == 0 then 0 else i - 1])
        invariant Settled(logs) && !finished ==> i + |last| <= |logs| + cursor
      {
        var log := logs[i];
        if i > 0 {
          GrowthKeepsReader(logs[i - 1], log, View());
        }
        CursorWithin(log, View());
        var left := |log| - cursor;
        assert sizes[i] in sizes;
        HandleBatch(log, if sizes[i] <= left then sizes[i] else left);
        i := i + 1;
      }
      GrownToLast(logs, if i == 0 then 0 else i - 1);
      GrowthKeepsReader(logs[if i == 0 then 0 else i - 1], last, View());
      YieldedUpToTerminal(last, View());
    }

    /** The loop over one batch; it returns from the generator at the terminal event. */
    method HandleBatch(log: seq<TaskEvent>, count: nat)
      requires Valid(log) && !finished && cursor + count <= |log|
      modifies this
      ensures Valid(log) && cursor <= old(cursor) + count
      ensures !finished ==> cursor == old(cursor) + count
      ensures count > 0 ==> cursor > old(cursor)
    {
      ghost var start := cursor;
      var batch := log[cursor..cursor + count];
      ghost var reader := NextReader(log, View(), Fetch(count));
      ActionKeepsReader(log, View(), Fetch(count));
      for i := 0 to |batch|
        invariant !finished && cursor == start + i
        invariant reader == StreamReader(task, cursor, batch[i..], yielded, Reading) && ReaderOk(log, reader)
      {
        ActionKeepsReader(log, reader, Handle);
        reader := NextReader(log, reader, Handle);
        var e := batch[i];
        cursor := cursor + 1;
        yielded := yielded + [e];
        if IsTerminal(e) {
          finished := true;
          return;
        }
      }
    }
  }
}
