/** The `Queue` and client objects, whose methods update their fields in place, as an implementation
    of the steps of `QueueOwnership`. The kernel state stands for ALSA. */
module QueueObjects {
  import opened Base
  import opened QueueOwnership

  class Queue {
    /** The identity of the object: its place among all wrappers made for the client. */
    ghost const index: nat
    var client: SequencerClient?
    var queueId: Option<int>
    var own: Option<bool>
    ghost var alive: bool

    constructor (ghost index: nat, client: SequencerClient, queueId: int, own: Option<bool>)
      ensures this.index == index && this.client == client
      ensures View() == Wrapper(Some(queueId), own, true, true)
    {
      this.index, this.client, this.queueId, this.own, alive := index, client, Some(queueId), own, true;
    }

    ghost function View(): Wrapper
      reads this
    {
      Wrapper(queueId, own, client != null, alive)
    }

    /** `close`: forgets id, ownership and client first, then calls the kernel. `succeeds` is the answer
        of `snd_seq_free_queue`; the result says whether an error is raised. */
    method Close(ghost c: SequencerClient, succeeds: bool) returns (raised: bool)
      requires c.Linked() && this in c.objects && alive
      modifies this, c
      ensures c.Linked() && c.objects == old(c.objects) && alive == old(alive)
      ensures c.queues == old(c.queues)
      ensures c.View() == Step(old(c.View()), QueueOwnership.Close(index, succeeds))
      ensures raised <==> old(View().Owning()) && old(c.open) && !succeeds
    {
      raised := false;
      if queueId.None? || client == null {
        assert c.View().wrappers == old(c.View()).wrappers[index := old(View()).Shut()];
        return;
      }
      var wasOpen := client.open;
      var id := queueId.value;
      var owned := own;
      var holder := client;
      queueId, own, client := None, Some(false), null;
      if wasOpen && owned.Some? {
        if owned.value {
          holder.kernel := Free(holder.kernel, id, succeeds);
          raised := !succeeds;
        } else {
          holder.kernel := holder.kernel.(usage := holder.kernel.usage - {id});
        }
      }
      assert c.View().wrappers == old(c.View()).wrappers[index := old(View()).Shut()];
    }
  }

  class SequencerClient {
    var open: bool
    var queues: map<int, Queue>
    var kernel: Kernel
    ghost var objects: seq<Queue>

    /** Every wrapper belongs to this client or to none, and the cache holds wrappers only. */
    ghost predicate Linked()
      reads this, objects
    {
      && (forall i :: 0 <= i < |objects| ==> objects[i].index == i && objects[i].client in {this, null})
      && (forall id :: id in queues ==> queues[id] in objects)
    }

    ghost function View(): State
      reads this, objects
    {
      State(open,
            map id | id in queues :: queues[id].index,
            seq(|objects|, i requires 0 <= i < |objects| reads this, objects => objects[i].View()),
            kernel)
    }

    constructor ()
      ensures Linked() && View() == INIT
    {
      open, queues, kernel, objects := true, map[], Kernel(map[], {}, {}, 0, []), [];
    }

    /** `create_queue`; `id` is the answer of the kernel, which never allocates a queue twice. None
        stands for the error of a closed client, for a failed allocation and for the failed assertion. */
    method CreateQueue(id: int) returns (q: Option<Queue>)
      requires Linked() && id !in kernel.owned && id !in kernel.foreign
      modifies this
      ensures Linked() && View() == Step(old(View()), Create(id))
      ensures q.Some? <==> old(open) && id >= 0 && id !in old(queues)
      ensures q.Some? ==> fresh(q.value) && objects == old(objects) + [q.value] && queues == old(queues)[id := q.value]
      ensures q.None? ==> objects == old(objects) && queues == old(queues)
    {
      if !open || id < 0 {
        return None;
      }
      kernel := Alloc(kernel, id);
      if id in queues {
        return None;
      }
      var queue := new Queue(|objects|, this, id, Some(true));
      queues := queues[id := queue];
      objects := objects + [queue];
      assert View().wrappers == old(View()).wrappers + [queue.View()];
      assert View().cache == old(View()).cache[id := queue.index];
      return Some(queue);
    }

    /** `get_queue`; `known` is the kernel's answer to marking the queue as used. */
    method GetQueue(id: int, known: bool) returns (q: Option<Queue>)
      requires Linked()
      modifies this
      ensures Linked() && View() == Step(old(View()), Get(id, known))
      ensures q.Some? <==> open && (id in queues || known)
      ensures q.Some? ==> q.value in objects && q.value.index == Found(old(View()), id)
      ensures id in queues && open ==> q == Some(queues[id]) && objects == old(objects)
      ensures queues == old(queues) && open == old(open)
    {
      if !open {
        return None;
      }
      if id in queues {
        return Some(queues[id]);
      }
      if !known {
        return None;
      }
      kernel := kernel.(usage := kernel.usage + {id});
      var queue := new Queue(|objects|, this, id, Some(false));
      objects := objects + [queue];
      assert View().wrappers == old(View()).wrappers + [queue.View()];
      assert View().cache == old(View()).cache;
      return Some(queue);
    }

    /** `Queue(client, id)`. */
    method WrapQueue(id: int) returns (q: Queue)
      requires Linked()
      modifies this
      ensures Linked() && View() == Step(old(View()), Wrap(id))
      ensures fresh(q) && objects == old(objects) + [q]
      ensures q.own == None && q.queueId == Some(id) && q.client == this && kernel == old(kernel)
    {
      q := new Queue(|objects|, this, id, None);
      objects := objects + [q];
      assert View().wrappers == old(View()).wrappers + [q.View()];
      assert View().cache == old(View()).cache;
    }

    /** The last reference to `q` goes away: `__del__` closes it, swallowing the error, and the weak
        cache forgets it. */
    method DropQueue(q: Queue, succeeds: bool)
      requires Linked() && q in objects && q.alive
      modifies this, q
      ensures Linked() && objects == old(objects)
      ensures View() == Step(old(View()), Drop(q.index, succeeds))
    {
      var _ := q.Close(this, succeeds);
      Forget(q);
    }

    /** The weak cache and the object itself once it is collected. */
    method Forget(q: Queue)
      requires Linked() && q in objects && q.alive
      modifies this`queues, q`alive
      ensures Linked()
      ensures var s := old(View());
              View() == s.(wrappers := s.wrappers[q.index := s.wrappers[q.index].(alive := false)],
                           cache := Without(s.cache, q.index))
    {
      assert objects[q.index] == q;
      assert forall id :: id in queues ==> objects[queues[id].index] == queues[id];
      queues := map id | id in queues && queues[id] != q :: queues[id];
      q.alive := false;
      assert View().cache == Without(old(View()).cache, q.index);
      assert View().wrappers == old(View()).wrappers[q.index := q.View()];
    }

    /** `close`: the kernel releases whatever the client still owns. */
    method CloseHandle()
      requires Linked()
      modifies this
      ensures Linked() && View() == Step(old(View()), CloseClient)
    {
      if !open {
        return;
      }
      kernel := kernel.(owned := map[], usage := {});
      open := false;
      assert View().wrappers == old(View()).wrappers;
    }
  }
}
