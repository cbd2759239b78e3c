/** The life of `Queue` objects: who owns a kernel queue, what the weak cache of the client holds, and
    what closing, dropping and closing the client do. */
module QueueOwnership {
  import opened Base

  /** `own` is `_own`: True for a queue the client allocated, False for one it only uses, None for one
      it does not manage. `alive` is false once the object has been collected. */
  datatype Wrapper = Wrapper(queueId: Option<int>, own: Option<bool>, hasClient: bool, alive: bool) {
    predicate Open() { queueId.Some? && hasClient }

    predicate Owning() { Open() && own == Some(true) }

    /** The fields after `close`. */
    function Shut(): Wrapper {
      if Open() then this.(queueId := None, own := Some(false), hasClient := false) else this
    }
  }

  /** The kernel's view of this client: its allocations by id, each with a serial number, the queues
      of other clients, and the queues it is marked as using. `freed` records every serial that
      `snd_seq_free_queue` released. */
  datatype Kernel = Kernel(owned: map<int, nat>, foreign: set<int>, usage: set<int>, serials: nat, freed: seq<nat>)

  /** `cache` is `_queues`; it and `wrappers` speak of wrapper objects by index. */
  datatype State = State(open: bool, cache: map<int, nat>, wrappers: seq<Wrapper>, kernel: Kernel)

  const INIT := State(true, map[], [], Kernel(map[], {}, {}, 0, []))

  datatype Action =
    | Create(answer: int)                  // the kernel allocates queue `answer`, or fails below zero
    | Get(id: int, known: bool)
    | Wrap(id: int)                        // Queue(client, id), unmanaged
    | Close(wrapper: nat, succeeds: bool)
    | Drop(wrapper: nat, succeeds: bool)   // the object is collected
    | CloseClient
    | ForeignAlloc(id: int)
    | ForeignFree(id: int)

  function Alloc(k: Kernel, id: int): Kernel {
    k.(owned := k.owned[id := k.serials], serials := k.serials + 1)
  }

  /** `snd_seq_free_queue`: only the owner can free, and the call may fail. */
  function Free(k: Kernel, id: int, succeeds: bool): Kernel {
    if succeeds && id in k.owned
    then k.(owned := k.owned - {id}, freed := k.freed + [k.owned[id]])
    else k
  }

  /** What `Queue.close` asks of the kernel. */
  function Release(k: Kernel, open: bool, w: Wrapper, succeeds: bool): Kernel {
    if !w.Open() || !open || w.own.None? then k
    else if w.own.value then Free(k, w.queueId.value, succeeds)
    else k.(usage := k.usage - {w.queueId.value})
  }

  function CloseWrapper(s: State, u: nat, succeeds: bool): State
    requires u < |s.wrappers|
  {
    s.(wrappers := s.wrappers[u := s.wrappers[u].Shut()],
       kernel := Release(s.kernel, s.open, s.wrappers[u], succeeds))
  }

  /** The entries of the weak dictionary that do not refer to the object `u`. */
  function Without(cache: map<int, nat>, u: nat): map<int, nat> {
    map id | id in cache && cache[id] != u :: cache[id]
  }

  function Step(s: State, a: Action): State {
    match a
    case Create(id) =>
      if !s.open || id < 0 || id in s.kernel.owned || id in s.kernel.foreign then s
      else if id in s.cache then s.(kernel := Alloc(s.kernel, id))  // the assertion in create_queue
      else
        State(s.open, s.cache[id := |s.wrappers|],
              s.wrappers + [Wrapper(Some(id), Some(true), true, true)], Alloc(s.kernel, id))
    case Get(id, known) =>
      if !s.open || id in s.cache || !known then s
      else
        s.(wrappers := s.wrappers + [Wrapper(Some(id), Some(false), true, true)],
           kernel := s.kernel.(usage := s.kernel.usage + {id}))
    case Wrap(id) => s.(wrappers := s.wrappers + [Wrapper(Some(id), None, true, true)])
    case Close(u, succeeds) =>
      if u < |s.wrappers| && s.wrappers[u].alive then CloseWrapper(s, u, succeeds) else s
    case Drop(u, succeeds) =>
      if u < |s.wrappers| && s.wrappers[u].alive then
        var t := CloseWrapper(s, u, succeeds);
        t.(wrappers := t.wrappers[u := t.wrappers[u].(alive := false)], cache := Without(s.cache, u))
      else s
    case CloseClient =>
      if s.open then s.(open := false, kernel := s.kernel.(owned := map[], usage := {})) else s
    case ForeignAlloc(id) =>
      if id in s.kernel.owned then s else s.(kernel := s.kernel.(foreign := s.kernel.foreign + {id}))
    case ForeignFree(id) => s.(kernel := s.kernel.(foreign := s.kernel.foreign - {id}))
  }

  function Run(s: State, actions: seq<Action>): State
    decreases |actions|
  {
    if actions == [] then s else Run(Step(s, actions[0]), actions[1..])
  }

  /* ---------- What every run keeps ---------- */

  /** A cached object is alive, and if it is open it owns the queue it is cached under. */
  ghost predicate CacheAgrees(s: State) {
    forall id :: id in s.cache ==>
      && s.cache[id] < |s.wrappers|
      && s.wrappers[s.cache[id]].alive
      && (s.wrappers[s.cache[id]].Open() ==>
            s.wrappers[s.cache[id]].Owning() && s.wrappers[s.cache[id]].queueId == Some(id))
  }

  /** An open owner is cached under its id, and the id is allocated as long as the client is open. */
  ghost predicate OwnersCached(s: State) {
    forall u :: 0 <= u < |s.wrappers| && s.wrappers[u].Owning() ==>
      && s.wrappers[u].alive
      && s.wrappers[u].queueId.value in s.cache
      && s.cache[s.wrappers[u].queueId.value] == u
      && (s.open ==> s.wrappers[u].queueId.value in s.kernel.owned)
  }

  /** Serials are used once: in `owned`, or in `freed`, or in neither, and never twice. */
  ghost predicate SerialsOnce(k: Kernel) {
    && (forall id :: id in k.owned ==> k.owned[id] < k.serials && k.owned[id] !in k.freed)
    && (forall i, j :: i in k.owned && j in k.owned && i != j ==> k.owned[i] != k.owned[j])
    && (forall i :: 0 <= i < |k.freed| ==> k.freed[i] < k.serials)
    && (forall i, j :: 0 <= i < j < |k.freed| ==> k.freed[i] != k.freed[j])
  }

  ghost predicate OwnsSerial(k: Kernel, serial: nat) {
    exists id :: id in k.owned && k.owned[id] == serial
  }

  /** While the client is open, every allocation is still owned or was freed. */
  ghost predicate Accounted(s: State) {
    s.open ==> forall x :: 0 <= x < s.kernel.serials ==> x in s.kernel.freed || OwnsSerial(s.kernel, x)
  }

  ghost predicate Inv(s: State) {
    CacheAgrees(s) && OwnersCached(s) && SerialsOnce(s.kernel) && Accounted(s)
  }

  lemma StepKeepsCache(s: State, a: Action)
    requires Inv(s)
    ensures CacheAgrees(Step(s, a))
  {}

  lemma StepKeepsOwners(s: State, a: Action)
    requires Inv(s)
    ensures OwnersCached(Step(s, a))
  {}

  lemma StepKeepsSerials(s: State, a: Action)
    requires SerialsOnce(s.kernel)
    ensures SerialsOnce(Step(s, a).kernel)
  {}

  lemma AllocAccounted(k: Kernel, id: int)
    requires id !in k.owned
    requires forall x :: 0 <= x < k.serials ==> x in k.freed || OwnsSerial(k, x)
    ensures var k1 := Alloc(k, id); forall x :: 0 <= x < k1.serials ==> x in k1.freed || OwnsSerial(k1, x)
  {
    var k1 := Alloc(k, id);
    forall x | 0 <= x < k1.serials
      ensures x in k1.freed || OwnsSerial(k1, x)
    {
      if x == k.serials {
        assert k1.owned[id] == x;
      } else if x !in k.freed {
        assert OwnsSerial(k, x);
        var i :| i in k.owned && k.owned[i] == x;
        assert k1.owned[i] == x;
      }
    }
  }

  lemma FreeAccounted(k: Kernel, id: int, succeeds: bool)
    requires forall x :: 0 <= x < k.serials ==> x in k.freed || OwnsSerial(k, x)
    ensures var k1 := Free(k, id, succeeds); forall x :: 0 <= x < k1.serials ==> x in k1.freed || OwnsSerial(k1, x)
  {
    var k1 := Free(k, id, succeeds);
    forall x | 0 <= x < k1.serials
      ensures x in k1.freed || OwnsSerial(k1, x)
    {
      if x !in k.freed {
        assert OwnsSerial(k, x);
        var i :| i in k.owned && k.owned[i] == x;
        if i in k1.owned {
          assert k1.owned[i] == x;
        } else {
          assert k1.freed[|k.freed|] == x;
        }
      } else {
        var j :| 0 <= j < |k.freed| && k.freed[j] == x;
        assert k1.freed[j] == x;
      }
    }
  }

  lemma StepKeepsAccounts(s: State, a: Action)
    requires Inv(s)
    ensures Accounted(Step(s, a))
  {
    if s.open {
      match a
      case Create(id) => if id !in s.kernel.owned { AllocAccounted(s.kernel, id); }
      case Close(u, succeeds) => ReleaseAccounted(s, u, succeeds);
      case Drop(u, succeeds) => ReleaseAccounted(s, u, succeeds);
      case _ =>
    }
  }

  lemma ReleaseAccounted(s: State, u: nat, succeeds: bool)
    requires s.open && Accounted(s)
    ensures u < |s.wrappers| ==> Accounted(CloseWrapper(s, u, succeeds))
  {
    if u < |s.wrappers| && s.wrappers[u].Owning() {
      FreeAccounted(s.kernel, s.wrappers[u].queueId.value, succeeds);
    }
  }

  lemma {:induction false} RunKeepsInv(s: State, actions: seq<Action>)
    requires Inv(s)
    ensures Inv(Run(s, actions))
    decreases |actions|
  {
    if actions != [] {
      StepKeepsCache(s, actions[0]);
      StepKeepsOwners(s, actions[0]);
      StepKeepsSerials(s, actions[0]);
      StepKeepsAccounts(s, actions[0]);
      RunKeepsInv(Step(s, actions[0]), actions[1..]);
    }
  }

  /** In every reachable state open owners have pairwise distinct ids, allocated to this client while
      it is open; each allocation has been freed at most once, and until the client is closed it is
      either freed or still owned. */
  lemma OwnershipExclusive(actions: seq<Action>, u: nat, v: nat, serial: nat)
    ensures var s := Run(INIT, actions);
            && (u < |s.wrappers| && s.wrappers[u].Owning() && s.open ==> s.wrappers[u].queueId.value in s.kernel.owned)
            && (u < |s.wrappers| && v < |s.wrappers| && u != v && s.wrappers[u].Owning() && s.wrappers[v].Owning()
                ==> s.wrappers[u].queueId != s.wrappers[v].queueId)
            && multiset(s.kernel.freed)[serial] <= 1
            && (s.open && serial < s.kernel.serials
                ==> (serial in s.kernel.freed <==> !OwnsSerial(s.kernel, serial)))
  {
    RunKeepsInv(INIT, actions);
    var s := Run(INIT, actions);
    CountOnce(s.kernel.freed, serial);
    if OwnsSerial(s.kernel, serial) {
      var id :| id in s.kernel.owned && s.kernel.owned[id] == serial;
    } else if s.open && serial < s.kernel.serials {
      assert serial in s.kernel.freed || OwnsSerial(s.kernel, serial);
    }
  }

  lemma {:induction false} CountOnce(s: seq<nat>, x: nat)
    requires forall i, j :: 0 <= i < j < |s| ==> s[i] != s[j]
    ensures multiset(s)[x] <= 1
  {
    if s != [] {
      var n := |s| - 1;
      assert s == s[..n] + [s[n]];
      CountOnce(s[..n], x);
      if s[n] == x {
        assert x !in s[..n];
      }
    }
  }

  /* ---------- Lookup ---------- */

  /** The object `get_queue(id)` returns, as an index into the wrappers after the call. */
  function Found(s: State, id: int): nat {
    if id in s.cache then s.cache[id] else |s.wrappers|
  }

  /** While an open owner of a queue exists, `get_queue` returns that very object and touches neither
      the wrappers nor the kernel. */
  lemma GetReturnsOwner(actions: seq<Action>, u: nat, known: bool)
    requires var s := Run(INIT, actions); u < |s.wrappers| && s.wrappers[u].Owning()
    ensures var s := Run(INIT, actions);
            var id := s.wrappers[u].queueId.value;
            Found(s, id) == u && Step(s, Get(id, known)) == s
  {
    RunKeepsInv(INIT, actions);
  }

  /** `create_queue` makes an owner of the queue the kernel allocated exactly when no object is cached
      under its id. Otherwise the cached object is one that was closed and is still referenced; the
      assertion fails and leaves an allocation that no open wrapper owns. */
  lemma CreateSucceedsIff(actions: seq<Action>, id: int)
    requires var s := Run(INIT, actions); s.open && id >= 0 && id !in s.kernel.owned && id !in s.kernel.foreign
    ensures var s := Run(INIT, actions);
            var t := Step(s, Create(id));
            && id in t.kernel.owned
            && (id !in s.cache <==> exists u :: 0 <= u < |t.wrappers| && t.wrappers[u].Owning() && t.wrappers[u].queueId == Some(id))
            && (id in s.cache ==> s.cache[id] < |s.wrappers| && !s.wrappers[s.cache[id]].Open() && Abandoned(t, id))
  {
    RunKeepsInv(INIT, actions);
    var s := Run(INIT, actions);
    var t := Step(s, Create(id));
    if id !in s.cache {
      assert t.wrappers[|s.wrappers|].Owning();
    }
  }

  /** What `get_queue` returns is open exactly when no object is cached under the id, or the cached one
      is still an open owner. A closed wrapper that is still referenced is returned as it is. */
  lemma GetReturnsOpenIff(actions: seq<Action>, id: int, known: bool)
    requires var s := Run(INIT, actions); s.open && (id in s.cache || known)
    ensures var s := Run(INIT, actions);
            var t := Step(s, Get(id, known));
            && (id in s.cache ==> s.cache[id] < |s.wrappers|)
            && Found(s, id) < |t.wrappers|
            && t.wrappers[Found(s, id)].alive
            && (t.wrappers[Found(s, id)].Open() <==> id !in s.cache || s.wrappers[s.cache[id]].Owning())
            && (t.wrappers[Found(s, id)].Open() ==> t.wrappers[Found(s, id)].queueId == Some(id))
  {
    RunKeepsInv(INIT, actions);
  }

  /** Both failures can be reached: a queue is created and closed while its wrapper stays referenced.
      Looking the id up returns the closed wrapper; when the kernel hands the id out again, creation
      abandons the new allocation for as long as the client is open. */
  lemma ClosedWrapperStaysCached(id: int, known: bool, later: seq<Action>)
    requires id >= 0
    ensures var s := Run(INIT, [Create(id), Close(0, true)]);
            && s.open && id !in s.kernel.owned && id !in s.kernel.foreign
            && Step(s, Get(id, known)) == s && Found(s, id) == 0 && |s.wrappers| == 1 && !s.wrappers[0].Open()
            && Abandoned(Step(s, Create(id)), id)
            && (Run(Step(s, Create(id)), later).open ==> Abandoned(Run(Step(s, Create(id)), later), id))
  {
    var actions := [Create(id), Close(0, true)];
    var s1 := Step(INIT, Create(id));
    var s := Step(s1, Close(0, true));
    assert actions[1..] == [Close(0, true)] && actions[1..][1..] == [];
    assert Run(INIT, actions) == Run(s1, [Close(0, true)]) == s;
    AbandonedForever(Step(s, Create(id)), id, later);
  }

  /** Allocated to the client, and no open wrapper owns it. */
  ghost predicate Abandoned(s: State, id: int) {
    && id in s.kernel.owned
    && forall u :: 0 <= u < |s.wrappers| ==> !(s.wrappers[u].Owning() && s.wrappers[u].queueId == Some(id))
  }

  lemma AbandonedStep(s: State, id: int, a: Action)
    requires Abandoned(s, id) && Step(s, a).open
    ensures Abandoned(Step(s, a), id) && Step(s, a).kernel.owned[id] == s.kernel.owned[id]
  {}

  /** An abandoned allocation stays for as long as the client is open, whatever is done with wrappers. */
  lemma {:induction false} AbandonedForever(s: State, id: int, actions: seq<Action>)
    requires Abandoned(s, id)
    ensures var t := Run(s, actions);
            t.open ==> Abandoned(t, id) && t.kernel.owned[id] == s.kernel.owned[id]
    decreases |actions|
  {
    if actions != [] {
      var t := Step(s, actions[0]);
      if t.open {
        AbandonedStep(s, id, actions[0]);
        AbandonedForever(t, id, actions[1..]);
      } else {
        ClosedStaysClosed(t, actions[1..]);
      }
    }
  }

  /** After the client is closed nothing is allocated, freed, used or given back any more. */
  lemma {:induction false} ClosedStaysClosed(s: State, actions: seq<Action>)
    requires !s.open
    ensures var t := Run(s, actions);
            && !t.open
            && t.kernel == s.kernel.(foreign := t.kernel.foreign)
    decreases |actions|
  {
    if actions != [] {
      ClosedStaysClosed(Step(s, actions[0]), actions[1..]);
    }
  }

  /* ---------- Closing ---------- */

  /** A wrapper whose close asks nothing of the kernel: unmanaged, or closed already. */
  predicate Harmless(w: Wrapper) {
    !w.Open() || w.own.None?
  }

  /** Closing is idempotent, also with anything in between, and unmanaged wrappers never change kernel
      state: from any state in which the wrapper is closed or unmanaged, on every continuation, closing
      or dropping it leaves the kernel as it is. */
  lemma {:induction false} HarmlessForever(s: State, u: nat, actions: seq<Action>, succeeds: bool)
    requires u < |s.wrappers| && Harmless(s.wrappers[u])
    ensures var t := Run(s, actions);
            && u < |t.wrappers| && Harmless(t.wrappers[u])
            && Step(t, Close(u, succeeds)).kernel == t.kernel
            && Step(t, Drop(u, succeeds)).kernel == t.kernel
    decreases |actions|
  {
    if actions != [] {
      HarmlessForever(Step(s, actions[0]), u, actions[1..], succeeds);
    }
  }

  /** Collecting an object closes it, and takes it and nothing else out of the weak cache; after that its
      id can be created again. */
  lemma CollectedIsForgotten(actions: seq<Action>, u: nat, succeeds: bool)
    requires var s := Run(INIT, actions); u < |s.wrappers| && s.wrappers[u].alive
    ensures var s := Run(INIT, actions);
            var t := Step(s, Drop(u, succeeds));
            && t.kernel == Step(s, Close(u, succeeds)).kernel
            && |t.wrappers| == |s.wrappers| && !t.wrappers[u].alive && !t.wrappers[u].Open()
            && (forall v :: 0 <= v < |s.wrappers| && v != u ==> t.wrappers[v] == s.wrappers[v])
            && (forall id :: id in t.cache <==> id in s.cache && s.cache[id] != u)
            && (forall id :: id in t.cache ==> t.cache[id] == s.cache[id])
            && (forall id :: id in s.cache && s.cache[id] == u && s.open && id >= 0
                             && id !in t.kernel.owned && id !in t.kernel.foreign ==>
                  Step(t, Create(id)).wrappers == t.wrappers + [Wrapper(Some(id), Some(true), true, true)])
  {
    RunKeepsInv(INIT, actions);
  }

  /** Queues of other clients: one never has the id of a queue of this client, in any reachable state, and
      their coming and going is all that changes with them. */
  lemma ForeignQueuesApart(actions: seq<Action>, id: int)
    ensures var s := Run(INIT, actions);
            && s.kernel.owned.Keys !! s.kernel.foreign
            && (id !in s.kernel.owned ==>
                  Step(s, ForeignAlloc(id)) == s.(kernel := s.kernel.(foreign := s.kernel.foreign + {id})))
            && Step(s, ForeignFree(id)) == s.(kernel := s.kernel.(foreign := s.kernel.foreign - {id}))
  {
    ApartStays(INIT, actions);
  }

  lemma {:induction false} ApartStays(s: State, actions: seq<Action>)
    requires s.kernel.owned.Keys !! s.kernel.foreign
    ensures Run(s, actions).kernel.owned.Keys !! Run(s, actions).kernel.foreign
    decreases |actions|
  {
    if actions != [] {
      ApartStays(Step(s, actions[0]), actions[1..]);
    }
  }

  /** Neither closed nor collected by these actions. */
  predicate LeftAlone(actions: seq<Action>, u: nat) {
    forall i :: 0 <= i < |actions| ==> !(actions[i].Close? && actions[i].wrapper == u) && !(actions[i].Drop? && actions[i].wrapper == u)
  }

  lemma {:induction false} WrapperStays(s: State, u: nat, actions: seq<Action>)
    requires u < |s.wrappers|
    ensures var t := Run(s, actions);
            && u < |t.wrappers|
            && (LeftAlone(actions, u) ==> t.wrappers[u] == s.wrappers[u])
    decreases |actions|
  {
    if actions != [] {
      var t := Step(s, actions[0]);
      assert LeftAlone(actions, u) ==> LeftAlone(actions[1..], u) && t.wrappers[u] == s.wrappers[u];
      WrapperStays(t, u, actions[1..]);
    }
  }

  /** `Queue(client, id)`, made at any point of a run: the wrapper is open under its id for as long as it
      is neither closed nor collected, and whenever it is, the kernel does not notice, no more than it
      noticed its making. */
  lemma WrappedIsUnmanaged(before: seq<Action>, id: int, after: seq<Action>, succeeds: bool)
    ensures var s := Run(INIT, before);
            var u := |s.wrappers|;
            var made := Step(s, Wrap(id));
            var t := Run(made, after);
            && made.kernel == s.kernel && made.cache == s.cache
            && u < |t.wrappers|
            && (LeftAlone(after, u) ==> t.wrappers[u] == Wrapper(Some(id), None, true, true))
            && Step(t, Close(u, succeeds)).kernel == t.kernel
            && Step(t, Drop(u, succeeds)).kernel == t.kernel
            && (t.wrappers[u].alive ==> Step(t, Close(u, succeeds)).wrappers[u].queueId == None)
  {
    var s := Run(INIT, before);
    var made := Step(s, Wrap(id));
    WrapperStays(made, |s.wrappers|, after);
    HarmlessForever(made, |s.wrappers|, after, succeeds);
    ShutOrOpen(made, |s.wrappers|, after);
  }

  /** A wrapper that is not open has forgotten its id. */
  lemma {:induction false} ShutOrOpen(s: State, u: nat, actions: seq<Action>)
    requires u < |s.wrappers| && (s.wrappers[u].Open() || s.wrappers[u].queueId == None)
    ensures var t := Run(s, actions);
            u < |t.wrappers| && (t.wrappers[u].Open() || t.wrappers[u].queueId == None)
    decreases |actions|
  {
    if actions != [] {
      ShutOrOpen(Step(s, actions[0]), u, actions[1..]);
    }
  }

  /** One close of an owner frees its queue at most, one close of a user only clears the usage mark;
      after it the wrapper is harmless, even when the kernel call failed. */
  lemma CloseOnce(actions: seq<Action>, u: nat, succeeds: bool)
    requires var s := Run(INIT, actions); u < |s.wrappers| && s.wrappers[u].alive && s.open
    ensures var s := Run(INIT, actions);
            var w := s.wrappers[u];
            var t := Step(s, Close(u, succeeds));
            && Harmless(t.wrappers[u])
            && t.wrappers[u] == (if w.Open() then Wrapper(None, Some(false), false, true) else w)
            && (w.Owning() ==> w.queueId.value in s.kernel.owned)
            && t.kernel.owned == (if w.Owning() && succeeds then s.kernel.owned - {w.queueId.value} else s.kernel.owned)
            && t.kernel.freed == (if w.Owning() && succeeds then s.kernel.freed + [s.kernel.owned[w.queueId.value]] else s.kernel.freed)
            && t.kernel.usage == (if w.Open() && w.own == Some(false) then s.kernel.usage - {w.queueId.value} else s.kernel.usage)
            && forall v :: 0 <= v < |s.wrappers| && v != u ==> t.wrappers[v] == s.wrappers[v]
  {
    RunKeepsInv(INIT, actions);
  }

  /* ---------- Usage marks ---------- */

  /** A lookup that makes a new wrapper, and with it the mark of the queue in the kernel. */
  predicate Marks(s: State, a: Action, id: int) {
    s.open && a == Get(id, true) && id !in s.cache
  }

  /** The closing of any wrapper that uses the queue, or of the client. */
  predicate Clears(s: State, a: Action, id: int) {
    && s.open
    && match a
       case Close(u, _) => u < |s.wrappers| && s.wrappers[u].alive && Uses(s.wrappers[u], id)
       case Drop(u, _) => u < |s.wrappers| && s.wrappers[u].alive && Uses(s.wrappers[u], id)
       case CloseClient => true
       case _ => false
  }

  predicate Uses(w: Wrapper, id: int) {
    w.Open() && w.own == Some(false) && w.queueId == Some(id)
  }

  lemma MarkStep(s: State, a: Action, id: int)
    ensures id in Step(s, a).kernel.usage <==> Marks(s, a, id) || (id in s.kernel.usage && !Clears(s, a, id))
  {}

  lemma {:induction false} RunSplit(s: State, before: seq<Action>, after: seq<Action>)
    ensures Run(s, before + after) == Run(Run(s, before), after)
    decreases |before|
  {
    if before == [] {
      assert before + after == after;
    } else {
      assert (before + after)[1..] == before[1..] + after;
      RunSplit(Step(s, before[0]), before[1..], after);
    }
  }

  /** Action `i` of a run marks the queue, and no later one clears the mark. */
  ghost predicate LastingMark(actions: seq<Action>, id: int, i: nat) {
    && i < |actions|
    && Marks(Run(INIT, actions[..i]), actions[i], id)
    && forall j :: i < j < |actions| ==> !Clears(Run(INIT, actions[..j]), actions[j], id)
  }

  lemma LastingMarkStep(actions: seq<Action>, a: Action, id: int, i: nat)
    requires i < |actions|
    ensures LastingMark(actions + [a], id, i) <==> LastingMark(actions, id, i) && !Clears(Run(INIT, actions), a, id)
  {
    var all := actions + [a];
    assert forall j :: 0 <= j < |actions| ==> all[..j] == actions[..j] && all[j] == actions[j];
    assert all[..|actions|] == actions && all[|actions|] == a;
  }

  /** All users of a queue share one mark: after any run it is there if and only if some lookup made it and
      no user of the queue, whichever lookup it came from, was closed after that. */
  lemma {:induction false} MarkedIff(actions: seq<Action>, id: int)
    ensures id in Run(INIT, actions).kernel.usage <==> exists i :: LastingMark(actions, id, i)
    decreases |actions|
  {
    if actions != [] {
      var n := |actions| - 1;
      var before, a := actions[..n], actions[n];
      assert actions == before + [a];
      RunSplit(INIT, before, [a]);
      assert [a][1..] == [];
      MarkedIff(before, id);
      MarkStep(Run(INIT, before), a, id);
      assert LastingMark(actions, id, n) <==> Marks(Run(INIT, before), a, id);
      if id in Run(INIT, actions).kernel.usage && !Marks(Run(INIT, before), a, id) {
        var i :| LastingMark(before, id, i);
        LastingMarkStep(before, a, id, i);
      }
      if i :| LastingMark(actions, id, i) && i != n {
        LastingMarkStep(before, a, id, i);
      }
    }
  }

  /** An open user is left without its mark: two lookups make two users of one queue, and closing either
      clears the mark under the other. */
  lemma SecondUserLosesItsMark(id: int, first: bool, succeeds: bool)
    ensures var s := Run(INIT, [Get(id, true), Get(id, true), Close(if first then 0 else 1, succeeds)]);
            && |s.wrappers| == 2 && s.open
            && Uses(s.wrappers[if first then 1 else 0], id)
            && id !in s.kernel.usage
  {
    var u := if first then 0 else 1;
    var s1 := Step(INIT, Get(id, true));
    var s2 := Step(s1, Get(id, true));
    var rest := [Get(id, true), Close(u, succeeds)];
    assert [Get(id, true), Get(id, true), Close(u, succeeds)][1..] == rest;
    assert rest[1..] == [Close(u, succeeds)] && [Close(u, succeeds)][1..] == [];
    assert Run(s2, [Close(u, succeeds)]) == Step(s2, Close(u, succeeds));
  }
}
