/** The predicate-based message queue (common/utils/message_queue.py). A predicate is a
    key `k` judged by a fixed relation `accepts(k, m)`; a deferred is a serial number. */
module MessageQueues {
  import opened Collections

  datatype Waiter<K> = Waiter(id: nat, key: K)
  datatype Queue<M, K> = Queue(waiting: seq<Waiter<K>>, queue: seq<M>)

  function RemoveAt<T>(s: seq<T>, i: nat): seq<T>
    requires i < |s|
  {
    s[..i] + s[i + 1..]
  }

  /** `i` is the place of the oldest waiter that accepts `m`, or the length if there is none. */
  predicate OldestWaiter<M, K>(accepts: (K, M) -> bool, waiting: seq<Waiter<K>>, m: M, i: nat) {
    && i <= |waiting|
    && (i < |waiting| ==> accepts(waiting[i].key, m))
    && forall j :: 0 <= j < i ==> !accepts(waiting[j].key, m)
  }

  /** `i` is the place of the oldest queued message that `k` accepts, or the length if there is none. */
  predicate OldestMessage<M, K>(accepts: (K, M) -> bool, queue: seq<M>, k: K, i: nat) {
    && i <= |queue|
    && (i < |queue| ==> accepts(k, queue[i]))
    && forall j :: 0 <= j < i ==> !accepts(k, queue[j])
  }

  /** A put that serves the waiter at `i`, or queues the message when there is none. */
  function AfterServing<M, K>(q: Queue<M, K>, m: M, i: nat): Queue<M, K> {
    if i < |q.waiting| then q.(waiting := RemoveAt(q.waiting, i)) else q.(queue := q.queue + [m])
  }

  /** A get that takes the message at `i`, or waits when there is none. */
  function AfterTaking<M, K>(q: Queue<M, K>, w: Waiter<K>, i: nat): Queue<M, K> {
    if i < |q.queue| then q.(queue := RemoveAt(q.queue, i)) else q.(waiting := q.waiting + [w])
  }

  /** All waiters but `id`, in order. */
  function Without<K>(waiting: seq<Waiter<K>>, id: nat): seq<Waiter<K>> {
    if waiting == [] then []
    else if waiting[0].id == id then Without(waiting[1..], id)
    else [waiting[0]] + Without(waiting[1..], id)
  }

  // ------------------------------------------------------------------ the object

  class MessageQueue<M, K> {
    const accepts: (K, M) -> bool
    var waiting: seq<Waiter<K>>
    var queue: seq<M>

    function View(): Queue<M, K>
      reads this
    {
      Queue(waiting, queue)
    }

    constructor (accepts: (K, M) -> bool)
      ensures this.accepts == accepts && waiting == [] && queue == []
    {
      this.accepts, waiting, queue := accepts, [], [];
    }

    /** Hands the message to the oldest waiter that accepts it, else queues it. */
    method Put(m: M) returns (served: Option<nat>, ghost i: nat)
      modifies this
      ensures OldestWaiter(accepts, old(waiting), m, i) && View() == AfterServing(old(View()), m, i)
      ensures served == if i < |old(waiting)| then Some(old(waiting)[i].id) else None
    {
      for n := 0 to |waiting|
        invariant waiting == old(waiting) && queue == old(queue)
        invariant forall j :: 0 <= j < n ==> !accepts(waiting[j].key, m)
      {
        if accepts(waiting[n].key, m) {
          i, served := n, Some(waiting[n].id);
          waiting := waiting[..n] + waiting[n + 1..];
          return;
        }
      }
      i, served := |waiting|, None;
      queue := queue + [m];
    }

    /** Takes the oldest acceptable message, else waits under the number `id`. */
    method Get(key: K, id: nat) returns (got: Option<M>, ghost i: nat)
      modifies this
      ensures OldestMessage(accepts, old(queue), key, i) && View() == AfterTaking(old(View()), Waiter(id, key), i)
      ensures got == if i < |old(queue)| then Some(old(queue)[i]) else None
    {
      for n := 0 to |queue|
        invariant waiting == old(waiting) && queue == old(queue)
        invariant forall j :: 0 <= j < n ==> !accepts(key, queue[j])
      {
        if accepts(key, queue[n]) {
          i, got := n, Some(queue[n]);
          queue := queue[..n] + queue[n + 1..];
          return;
        }
      }
      i, got := |queue|, None;
      waiting := waiting + [Waiter(id, key)];
    }

    /** Removes the waiter, then runs past the shortened list unless it was the last one. */
    method CancelGet(id: nat) returns (ok: bool)
      requires forall i, j :: 0 <= i < j < |waiting| ==> waiting[i].id != waiting[j].id
      modifies this`waiting
      ensures waiting == Without(old(waiting), id)
      ensures ok <==> forall i :: 0 <= i < |old(waiting)| - 1 ==> old(waiting)[i].id != id
    {
      ghost var was := waiting;
      var n := |waiting|;
      ghost var cut := n;
      for i := 0 to n
        invariant if cut < i then 0 <= cut && was[cut].id == id && waiting == RemoveAt(was, cut)
                  else cut == n && waiting == was && forall j :: 0 <= j < i ==> was[j].id != id
        invariant cut < i ==> i < n || cut == n - 1
      {
        if i >= |waiting| {
          WithoutIs(was, id, cut);
          return false;
        }
        if waiting[i].id == id {
          waiting := waiting[..i] + waiting[i + 1..];
          cut := i;
        }
      }
      WithoutIs(was, id, cut);
      ok := true;
    }

    /** Fails every waiter and drops every message. */
    method Reset() returns (failed: seq<nat>)
      modifies this
      ensures waiting == [] && queue == []
      ensures |failed| == |old(waiting)| && forall i :: 0 <= i < |failed| ==> failed[i] == old(waiting)[i].id
    {
      failed := [];
      for i := 0 to |waiting|
        invariant waiting == old(waiting)
        invariant |failed| == i && forall j :: 0 <= j < i ==> failed[j] == waiting[j].id
      {
        failed := failed + [waiting[i].id];
      }
      waiting, queue := [], [];
    }
  }

  lemma {:induction false} WithoutIs<K>(waiting: seq<Waiter<K>>, id: nat, cut: nat)
    requires cut <= |waiting| && (cut < |waiting| ==> waiting[cut].id == id)
    requires forall j :: 0 <= j < |waiting| && j != cut ==> waiting[j].id != id
    ensures Without(waiting, id) == if cut < |waiting| then RemoveAt(waiting, cut) else waiting
  {
    if waiting != [] {
      var rest := waiting[1..];
      if cut == 0 {
        WithoutIs(rest, id, |rest|);
        assert RemoveAt(waiting, 0) == rest;
      } else {
        WithoutIs(rest, id, cut - 1);
        assert waiting == [waiting[0]] + rest;
        assert cut < |waiting| ==> RemoveAt(waiting, cut) == [waiting[0]] + RemoveAt(rest, cut - 1);
      }
    }
  }

  // ------------------------------------------------------------- bookkeeping

  /** What became of the numbers 0..n: still pending (in order), done, or lost. */
  datatype Fate = Fate(pending: seq<nat>, done: seq<nat>, lost: set<nat>)
  {
    /** Each number below `n` is in exactly one place, once. */
    ghost predicate Accounts(n: nat) {
      && (forall i, j :: 0 <= i < j < |pending| ==> pending[i] < pending[j]) && Distinct(done)
      && (forall i :: 0 <= i < |pending| ==> pending[i] < n)
      && (forall i :: 0 <= i < |done| ==> done[i] < n)
      && (forall x :: x in lost ==> x < n)
      && (forall x | 0 <= x < n :: x in pending || x in done || x in lost)
      && (forall x | 0 <= x < n ::
            !(x in pending && x in done) && !(x in pending && x in lost) && !(x in done && x in lost))
    }
  }

  lemma RemoveAtMembers(s: seq<nat>, i: nat)
    requires i < |s| && forall i, j :: 0 <= i < j < |s| ==> s[i] < s[j]
    ensures forall x :: x in RemoveAt(s, i) <==> x in s && x != s[i]
    ensures var t := RemoveAt(s, i); forall i, j :: 0 <= i < j < |t| ==> t[i] < t[j]
  {
    var t := RemoveAt(s, i);
    assert forall j :: 0 <= j < i ==> t[j] == s[j];
    assert forall j :: i <= j < |t| ==> t[j] == s[j + 1];
    forall x | x in s && x != s[i]
      ensures x in t
    {
      var j :| 0 <= j < |s| && s[j] == x;
      assert t[if j < i then j else j - 1] == x;
    }
  }

  lemma Finish(f: Fate, n: nat, i: nat)
    requires f.Accounts(n) && i < |f.pending|
    ensures Fate(RemoveAt(f.pending, i), f.done + [f.pending[i]], f.lost).Accounts(n)
  {
    RemoveAtMembers(f.pending, i);
    var g := Fate(RemoveAt(f.pending, i), f.done + [f.pending[i]], f.lost);
    assert f.pending[i] !in f.done;
    assert forall x :: x in g.done <==> x in f.done || x == f.pending[i];
  }

  lemma Lose(f: Fate, n: nat, i: nat)
    requires f.Accounts(n) && i < |f.pending|
    ensures Fate(RemoveAt(f.pending, i), f.done, f.lost + {f.pending[i]}).Accounts(n)
  {
    RemoveAtMembers(f.pending, i);
  }

  lemma LoseAll(f: Fate, n: nat)
    requires f.Accounts(n)
    ensures Fate([], f.done, f.lost + Elements(f.pending)).Accounts(n)
  {
  }

  lemma Issue(f: Fate, n: nat)
    requires f.Accounts(n)
    ensures Fate(f.pending + [n], f.done, f.lost).Accounts(n + 1)
    ensures Fate(f.pending, f.done + [n], f.lost).Accounts(n + 1)
  {
    assert forall x :: x in f.pending + [n] <==> x in f.pending || x == n;
    assert forall x :: x in f.done + [n] <==> x in f.done || x == n;
    assert n !in f.pending && n !in f.done;
  }

  // ---------------------------------------------------------------- whole runs

  datatype Event<M, K> = Put(m: M) | Get(key: K) | Cancel(id: nat) | Reset

  /** The queue, all messages put and gets made so far, and what became of them. The i-th
      delivery gave message number `messages.done[i]` to get number `gets.done[i]`. */
  datatype Log<M, K> = Log(q: Queue<M, K>, put: seq<M>, keys: seq<K>, messages: Fate, gets: Fate)

  /** Waiters and their bookkeeping run in parallel. */
  ghost predicate Aligned<M, K>(s: Log<M, K>) {
    && s.messages.Accounts(|s.put|) && s.gets.Accounts(|s.keys|)
    && |s.q.queue| == |s.messages.pending| && |s.q.waiting| == |s.gets.pending|
    && (forall i :: 0 <= i < |s.q.queue| ==> s.q.queue[i] == s.put[s.messages.pending[i]])
    && (forall i :: 0 <= i < |s.q.waiting| ==> s.q.waiting[i] == Waiter(s.gets.pending[i], s.keys[s.gets.pending[i]]))
  }

  ghost function AfterPut<M, K>(s: Log<M, K>, m: M, i: nat): Log<M, K>
    requires Aligned(s)
  {
    var n := |s.put|;
    if i < |s.q.waiting| then
      s.(put := s.put + [m], q := AfterServing(s.q, m, i),
         messages := s.messages.(done := s.messages.done + [n]),
         gets := s.gets.(pending := RemoveAt(s.gets.pending, i), done := s.gets.done + [s.gets.pending[i]]))
    else
      s.(put := s.put + [m], q := AfterServing(s.q, m, i),
         messages := s.messages.(pending := s.messages.pending + [n]))
  }

  ghost function AfterGet<M, K>(s: Log<M, K>, k: K, i: nat): Log<M, K>
    requires Aligned(s)
  {
    var n := |s.keys|;
    if i < |s.q.queue| then
      s.(keys := s.keys + [k], q := AfterTaking(s.q, Waiter(n, k), i),
         gets := s.gets.(done := s.gets.done + [n]),
         messages := s.messages.(pending := RemoveAt(s.messages.pending, i),
                                 done := s.messages.done + [s.messages.pending[i]]))
    else
      s.(keys := s.keys + [k], q := AfterTaking(s.q, Waiter(n, k), i),
         gets := s.gets.(pending := s.gets.pending + [n]))
  }

  ghost function AfterCancel<M, K>(s: Log<M, K>, i: nat): Log<M, K>
    requires Aligned(s) && i < |s.q.waiting|
  {
    s.(q := s.q.(waiting := Without(s.q.waiting, s.q.waiting[i].id)),
       gets := s.gets.(pending := RemoveAt(s.gets.pending, i), lost := s.gets.lost + {s.gets.pending[i]}))
  }

  ghost predicate Step<M, K>(accepts: (K, M) -> bool, s: Log<M, K>, e: Event<M, K>, t: Log<M, K>)
    requires Aligned(s)
  {
    match e
    case Put(m) => exists i :: OldestWaiter(accepts, s.q.waiting, m, i) && t == AfterPut(s, m, i)
    case Get(k) => exists i :: OldestMessage(accepts, s.q.queue, k, i) && t == AfterGet(s, k, i)
    case Cancel(id) => exists i :: 0 <= i < |s.q.waiting| && s.q.waiting[i].id == id && t == AfterCancel(s, i)
    case Reset =>
      t == s.(q := Queue([], []), messages := Fate([], s.messages.done, s.messages.lost + Elements(s.messages.pending)),
              gets := Fate([], s.gets.done, s.gets.lost + Elements(s.gets.pending)))
  }

  /** No queued message is acceptable to anyone waiting. */
  ghost predicate NothingMissed<M, K>(accepts: (K, M) -> bool, s: Log<M, K>) {
    forall i, j :: 0 <= i < |s.q.waiting| && 0 <= j < |s.q.queue| ==> !accepts(s.q.waiting[i].key, s.q.queue[j])
  }

  /** Each delivery gave one message to one get that accepts it. */
  ghost predicate DeliveredRight<M, K>(accepts: (K, M) -> bool, s: Log<M, K>)
    requires Aligned(s)
  {
    && |s.messages.done| == |s.gets.done|
    && forall i :: 0 <= i < |s.gets.done| ==> accepts(s.keys[s.gets.done[i]], s.put[s.messages.done[i]])
  }

  ghost predicate Inv<M, K>(accepts: (K, M) -> bool, s: Log<M, K>) {
    Aligned(s) && NothingMissed(accepts, s) && DeliveredRight(accepts, s)
  }

  lemma PutAligned<M, K>(s: Log<M, K>, m: M, i: nat)
    requires Aligned(s)
    ensures Aligned(AfterPut(s, m, i))
  {
    hide Fate.Accounts;
    Issue(s.messages, |s.put|);
    if i < |s.q.waiting| {
      Finish(s.gets, |s.keys|, i);
    }
    Bounded(s.messages, |s.put|);
    Bounded(s.gets, |s.keys|);
  }

  lemma GetAligned<M, K>(s: Log<M, K>, k: K, i: nat)
    requires Aligned(s)
    ensures Aligned(AfterGet(s, k, i))
  {
    hide Fate.Accounts;
    Issue(s.gets, |s.keys|);
    if i < |s.q.queue| {
      Finish(s.messages, |s.put|, i);
    }
    Bounded(s.messages, |s.put|);
    Bounded(s.gets, |s.keys|);
  }

  lemma Bounded(f: Fate, n: nat)
    requires f.Accounts(n)
    ensures forall i :: 0 <= i < |f.pending| ==> f.pending[i] < n
    ensures forall i :: 0 <= i < |f.done| ==> f.done[i] < n
  {
  }

  lemma PutKeepsInv<M, K>(accepts: (K, M) -> bool, s: Log<M, K>, m: M, i: nat)
    requires Inv(accepts, s) && OldestWaiter(accepts, s.q.waiting, m, i)
    ensures Inv(accepts, AfterPut(s, m, i))
  {
    hide Fate.Accounts;
    PutAligned(s, m, i);
    Bounded(s.messages, |s.put|);
    Bounded(s.gets, |s.keys|);
  }

  lemma GetKeepsInv<M, K>(accepts: (K, M) -> bool, s: Log<M, K>, k: K, i: nat)
    requires Inv(accepts, s) && OldestMessage(accepts, s.q.queue, k, i)
    ensures Inv(accepts, AfterGet(s, k, i))
  {
    hide Fate.Accounts;
    GetAligned(s, k, i);
    Bounded(s.messages, |s.put|);
    Bounded(s.gets, |s.keys|);
  }

  lemma CancelKeepsInv<M, K>(accepts: (K, M) -> bool, s: Log<M, K>, i: nat)
    requires Inv(accepts, s) && i < |s.q.waiting|
    ensures Inv(accepts, AfterCancel(s, i))
  {
    hide Fate.Accounts, Without;
    Lose(s.gets, |s.keys|, i);
    Bounded(s.gets, |s.keys|);
    CancelRemoves(s, i);
  }

  lemma CancelRemoves<M, K>(s: Log<M, K>, i: nat)
    requires Aligned(s) && i < |s.q.waiting|
    ensures Without(s.q.waiting, s.q.waiting[i].id) == RemoveAt(s.q.waiting, i)
  {
    hide Without;
    WithoutIs(s.q.waiting, s.q.waiting[i].id, i);
  }

  lemma StepKeepsInv<M, K>(accepts: (K, M) -> bool, s: Log<M, K>, e: Event<M, K>, t: Log<M, K>)
    requires Inv(accepts, s) && Step(accepts, s, e, t)
    ensures Inv(accepts, t)
  {
    hide Fate.Accounts, AfterPut, AfterGet, AfterCancel;
    match e
    case Put(m) =>
      var i :| OldestWaiter(accepts, s.q.waiting, m, i) && t == AfterPut(s, m, i);
      PutKeepsInv(accepts, s, m, i);
    case Get(k) =>
      var i :| OldestMessage(accepts, s.q.queue, k, i) && t == AfterGet(s, k, i);
      GetKeepsInv(accepts, s, k, i);
    case Cancel(id) =>
      var i :| 0 <= i < |s.q.waiting| && s.q.waiting[i].id == id && t == AfterCancel(s, i);
      CancelKeepsInv(accepts, s, i);
    case Reset =>
      LoseAll(s.messages, |s.put|);
      LoseAll(s.gets, |s.keys|);
  }

  function Start<M, K>(): Log<M, K> { Log(Queue([], []), [], [], Fate([], [], {}), Fate([], [], {})) }

  ghost predicate IsRun<M, K>(accepts: (K, M) -> bool, states: seq<Log<M, K>>, events: seq<Event<M, K>>) {
    && |states| == |events| + 1 && states[0] == Start()
    && forall i :: 0 <= i < |events| && Aligned(states[i]) ==> Step(accepts, states[i], events[i], states[i + 1])
  }

  /** In every run nobody waits for a message that is there, and every message and every
      get is in exactly one place: pending, delivered once to a match, or lost to a reset or cancel. */
  lemma {:induction false} InvOverRuns<M, K>(accepts: (K, M) -> bool, states: seq<Log<M, K>>,
                                             events: seq<Event<M, K>>, n: nat)
    requires IsRun(accepts, states, events) && n < |states|
    ensures Inv(accepts, states[n])
  {
    hide Step, NothingMissed, DeliveredRight, Fate.Accounts;
    if n > 0 {
      InvOverRuns(accepts, states, events, n - 1);
      StepKeepsInv(accepts, states[n - 1], events[n - 1], states[n]);
    } else {
      StartIsFine(accepts);
    }
  }

  lemma StartIsFine<M, K>(accepts: (K, M) -> bool)
    ensures Inv(accepts, Start())
  {
  }

  // ------------------------------------------------------------------- channels

  /** The numbers of `idx` whose entry in `all` satisfies `f`, in order. */
  ghost function Chosen<T>(idx: seq<nat>, all: seq<T>, f: T -> bool): seq<nat>
    requires forall i :: 0 <= i < |idx| ==> idx[i] < |all|
  {
    if idx == [] then []
    else
      var n := |idx| - 1;
      Chosen(idx[..n], all, f) + (if f(all[idx[n]]) then [idx[n]] else [])
  }

  ghost function Range(n: nat): (r: seq<nat>)
    ensures |r| == n && forall i :: 0 <= i < n ==> r[i] == i
  {
    if n == 0 then [] else Range(n - 1) + [n - 1]
  }

  lemma {:induction false} ChosenConcat<T>(a: seq<nat>, b: seq<nat>, all: seq<T>, f: T -> bool)
    requires forall i :: 0 <= i < |a| ==> a[i] < |all|
    requires forall i :: 0 <= i < |b| ==> b[i] < |all|
    ensures Chosen(a + b, all, f) == Chosen(a, all, f) + Chosen(b, all, f)
  {
    if b == [] {
      assert a + b == a;
    } else {
      var n := |b| - 1;
      ChosenConcat(a, b[..n], all, f);
      assert (a + b)[..|a + b| - 1] == a + b[..n];
    }
  }

  lemma {:induction false} ChosenGrow<T>(idx: seq<nat>, all: seq<T>, x: T, f: T -> bool)
    requires forall i :: 0 <= i < |idx| ==> idx[i] < |all|
    ensures Chosen(idx, all + [x], f) == Chosen(idx, all, f)
  {
    if idx != [] {
      ChosenGrow(idx[..|idx| - 1], all, x, f);
    }
  }

  lemma {:induction false} ChosenNone<T>(idx: seq<nat>, all: seq<T>, f: T -> bool)
    requires forall i :: 0 <= i < |idx| ==> idx[i] < |all| && !f(all[idx[i]])
    ensures Chosen(idx, all, f) == []
  {
    if idx != [] {
      ChosenNone(idx[..|idx| - 1], all, f);
    }
  }

  lemma ChosenOne<T>(x: nat, all: seq<T>, f: T -> bool)
    requires x < |all|
    ensures Chosen([x], all, f) == if f(all[x]) then [x] else []
  {
    assert [x][..0] == [];
  }

  /** Taking out the first chosen number, or one that is not chosen. */
  lemma ChosenRemove<T>(idx: seq<nat>, i: nat, all: seq<T>, f: T -> bool)
    requires i < |idx| && forall j :: 0 <= j < |idx| ==> idx[j] < |all|
    requires f(all[idx[i]]) ==> forall j :: 0 <= j < i ==> !f(all[idx[j]])
    ensures Chosen(idx, all, f) == Chosen([idx[i]], all, f) + Chosen(RemoveAt(idx, i), all, f)
  {
    hide Chosen;
    var a, x, b := idx[..i], [idx[i]], idx[i + 1..];
    assert idx == (a + x) + b;
    ChosenConcat(a + x, b, all, f);
    ChosenConcat(a, x, all, f);
    ChosenConcat(a, b, all, f);
    ChosenOne(idx[i], all, f);
    if f(all[idx[i]]) {
      ChosenNone(a, all, f);
    }
    MoveFront(Chosen(a, all, f), Chosen(x, all, f), Chosen(b, all, f));
  }

  lemma MoveFront<T>(a: seq<T>, x: seq<T>, b: seq<T>)
    requires a == [] || x == []
    ensures (a + x) + b == x + (a + b)
  {
  }

  /** All numbers of one kind: first the finished ones, then the pending ones, in order of issue. */
  ghost predicate InOrder<T>(fate: Fate, all: seq<T>, f: T -> bool)
    requires fate.Accounts(|all|)
  {
    Chosen(fate.done, all, f) + Chosen(fate.pending, all, f) == Chosen(Range(|all|), all, f)
  }

  lemma OrderFinish<T>(fate: Fate, all: seq<T>, f: T -> bool, i: nat)
    requires fate.Accounts(|all|) && InOrder(fate, all, f) && i < |fate.pending|
    requires f(all[fate.pending[i]]) ==> forall j :: 0 <= j < i ==> !f(all[fate.pending[j]])
    ensures var g := Fate(RemoveAt(fate.pending, i), fate.done + [fate.pending[i]], fate.lost);
            g.Accounts(|all|) && InOrder(g, all, f)
  {
    hide Chosen, Fate.Accounts, RemoveAt;
    Finish(fate, |all|, i);
    Bounded(fate, |all|);
    ChosenRemove(fate.pending, i, all, f);
    ChosenConcat(fate.done, [fate.pending[i]], all, f);
  }

  lemma ChosenRange<T>(all: seq<T>, f: T -> bool, x: T)
    ensures Chosen(Range(|all| + 1), all + [x], f) == Chosen(Range(|all|), all, f) + Chosen([|all|], all + [x], f)
  {
    hide Chosen;
    var n := |all|;
    ChosenConcat(Range(n), [n], all + [x], f);
    ChosenGrow(Range(n), all, x, f);
  }

  /** A new number joins the pending ones. */
  lemma OrderIssue<T>(fate: Fate, all: seq<T>, f: T -> bool, x: T)
    requires fate.Accounts(|all|) && InOrder(fate, all, f)
    ensures var g := Fate(fate.pending + [|all|], fate.done, fate.lost);
            g.Accounts(|all + [x]|) && InOrder(g, all + [x], f)
  {
    hide Chosen, Fate.Accounts, Range;
    var n, more := |all|, all + [x];
    Issue(fate, n);
    Bounded(fate, n);
    ChosenRange(all, f, x);
    ChosenConcat(fate.pending, [n], more, f);
    ChosenGrow(fate.pending, all, x, f);
    ChosenGrow(fate.done, all, x, f);
    Associate(Chosen(fate.done, all, f), Chosen(fate.pending, all, f), Chosen([n], more, f));
  }

  /** A new number is finished at once, when none of its kind is pending. */
  lemma OrderPass<T>(fate: Fate, all: seq<T>, f: T -> bool, x: T)
    requires fate.Accounts(|all|) && InOrder(fate, all, f)
    requires f(x) ==> Chosen(fate.pending, all, f) == []
    ensures var g := Fate(fate.pending, fate.done + [|all|], fate.lost);
            g.Accounts(|all + [x]|) && InOrder(g, all + [x], f)
  {
    hide Chosen, Fate.Accounts, Range;
    var n, more := |all|, all + [x];
    Issue(fate, n);
    Bounded(fate, n);
    ChosenRange(all, f, x);
    ChosenConcat(fate.done, [n], more, f);
    ChosenGrow(fate.pending, all, x, f);
    ChosenGrow(fate.done, all, x, f);
    ChosenOne(n, more, f);
    Associate(Chosen(fate.done, all, f), Chosen([n], more, f), Chosen(fate.pending, all, f));
    MoveFront(Chosen(fate.pending, all, f), Chosen([n], more, f), []);
    Associate(Chosen(fate.done, all, f), Chosen(fate.pending, all, f), Chosen([n], more, f));
  }

  /** Each message belongs to one channel, and each get names the channel it listens to. */
  function Channels<M, K(==)>(channel: M -> K): (K, M) -> bool { (k, m) => channel(m) == k }

  function Speaks<M, K(==)>(channel: M -> K, k: K): M -> bool { m => channel(m) == k }

  function Listens<K(==)>(k: K): K -> bool { x => x == k }

  ghost predicate Fifo<M, K>(channel: M -> K, k: K, s: Log<M, K>)
    requires Aligned(s)
  {
    InOrder(s.messages, s.put, Speaks(channel, k)) && InOrder(s.gets, s.keys, Listens(k))
  }

  lemma PutFifo<M, K>(channel: M -> K, k: K, s: Log<M, K>, m: M, i: nat)
    requires Inv(Channels(channel), s) && OldestWaiter(Channels(channel), s.q.waiting, m, i) && Fifo(channel, k, s)
    ensures Aligned(AfterPut(s, m, i)) && Fifo(channel, k, AfterPut(s, m, i))
  {
    hide Chosen, Fate.Accounts, RemoveAt, InOrder;
    PutAligned(s, m, i);
    Bounded(s.messages, |s.put|);
    Bounded(s.gets, |s.keys|);
    var f := Speaks(channel, k);
    if i < |s.q.waiting| {
      OrderFinish(s.gets, s.keys, Listens(k), i);
      if f(m) {
        assert s.q.waiting[i].key == k;
        ChosenNone(s.messages.pending, s.put, f);
      }
      OrderPass(s.messages, s.put, f, m);
    } else {
      OrderIssue(s.messages, s.put, f, m);
    }
  }

  lemma GetFifo<M, K>(channel: M -> K, k: K, s: Log<M, K>, key: K, i: nat)
    requires Inv(Channels(channel), s) && OldestMessage(Channels(channel), s.q.queue, key, i) && Fifo(channel, k, s)
    ensures Aligned(AfterGet(s, key, i)) && Fifo(channel, k, AfterGet(s, key, i))
  {
    hide Chosen, Fate.Accounts, RemoveAt, InOrder;
    GetAligned(s, key, i);
    Bounded(s.messages, |s.put|);
    Bounded(s.gets, |s.keys|);
    var f := Listens(k);
    if i < |s.q.queue| {
      OrderFinish(s.messages, s.put, Speaks(channel, k), i);
      if f(key) {
        assert channel(s.q.queue[i]) == k;
        ChosenNone(s.gets.pending, s.keys, f);
      }
      OrderPass(s.gets, s.keys, f, key);
    } else {
      OrderIssue(s.gets, s.keys, f, key);
    }
  }

  lemma {:induction false} FifoOverRuns<M, K>(channel: M -> K, k: K, states: seq<Log<M, K>>, events: seq<Event<M, K>>,
                                              n: nat)
    requires IsRun(Channels(channel), states, events) && n < |states|
    requires forall i :: 0 <= i < |events| ==> events[i].Put? || events[i].Get?
    ensures Inv(Channels(channel), states[n]) && Fifo(channel, k, states[n])
  {
    hide NothingMissed, DeliveredRight, Fate.Accounts, InOrder, Aligned, OldestWaiter, OldestMessage, AfterPut,
         AfterGet;
    InvOverRuns(Channels(channel), states, events, n);
    if n > 0 {
      FifoOverRuns(channel, k, states, events, n - 1);
      var s, t := states[n - 1], states[n];
      match events[n - 1]
      case Put(m) =>
        var i :| OldestWaiter(Channels(channel), s.q.waiting, m, i) && t == AfterPut(s, m, i);
        PutFifo(channel, k, s, m, i);
      case Get(key) =>
        var i :| OldestMessage(Channels(channel), s.q.queue, key, i) && t == AfterGet(s, key, i);
        GetFifo(channel, k, s, key, i);
    } else {
      StartFifo(channel, k);
    }
  }

  lemma StartFifo<M, K>(channel: M -> K, k: K)
    ensures Fifo(channel, k, Start())
  {
    assert Range(0) == [];
  }

  /** Up to any delivery a channel has seen as many messages as gets. */
  lemma {:induction false} SameRank<M, K>(channel: M -> K, k: K, s: Log<M, K>, n: nat)
    requires Aligned(s) && DeliveredRight(Channels(channel), s) && n <= |s.messages.done|
    ensures |Chosen(s.messages.done[..n], s.put, Speaks(channel, k))| == |Chosen(s.gets.done[..n], s.keys, Listens(k))|
  {
    if n > 0 {
      SameRank(channel, k, s, n - 1);
      assert s.messages.done[..n][..n - 1] == s.messages.done[..n - 1];
      assert s.gets.done[..n][..n - 1] == s.gets.done[..n - 1];
    }
  }

  lemma ChosenAt<T>(idx: seq<nat>, i: nat, all: seq<T>, f: T -> bool)
    requires i < |idx| && (forall j :: 0 <= j < |idx| ==> idx[j] < |all|) && f(all[idx[i]])
    ensures var c := Chosen(idx, all, f); var r := |Chosen(idx[..i], all, f)|; r < |c| && c[r] == idx[i]
  {
    hide Chosen;
    var a, x, b := idx[..i], [idx[i]], idx[i + 1..];
    assert idx == (a + x) + b;
    ChosenConcat(a + x, b, all, f);
    ChosenConcat(a, x, all, f);
    ChosenOne(idx[i], all, f);
  }

  /** A queue of channels: in any run of puts and gets, each channel's first message goes to
      its first get, its second to its second and so on, until one side is used up. */
  lemma PairedInOrder<M, K>(channel: M -> K, k: K, states: seq<Log<M, K>>, events: seq<Event<M, K>>, n: nat)
    requires IsRun(Channels(channel), states, events) && n < |states|
    requires forall i :: 0 <= i < |events| ==> events[i].Put? || events[i].Get?
    ensures Inv(Channels(channel), states[n])
    ensures var s := states[n];
            var sent := Chosen(Range(|s.put|), s.put, Speaks(channel, k));
            var asked := Chosen(Range(|s.keys|), s.keys, Listens(k));
            && |Chosen(s.messages.done, s.put, Speaks(channel, k))| == (if |sent| <= |asked| then |sent| else |asked|)
            && forall i :: 0 <= i < |s.messages.done| && channel(s.put[s.messages.done[i]]) == k ==>
                 var rank := |Chosen(s.messages.done[..i], s.put, Speaks(channel, k))|;
                 && rank < |sent| && rank < |asked|
                 && s.messages.done[i] == sent[rank] && s.gets.done[i] == asked[rank]
  {
    hide Chosen, Fate.Accounts, IsRun;
    FifoOverRuns(channel, k, states, events, n);
    var s := states[n];
    Bounded(s.messages, |s.put|);
    Bounded(s.gets, |s.keys|);
    AllServed(channel, k, s);
    forall i | 0 <= i < |s.messages.done| && channel(s.put[s.messages.done[i]]) == k
      ensures var rank := |Chosen(s.messages.done[..i], s.put, Speaks(channel, k))|;
              && rank < |Chosen(s.messages.done, s.put, Speaks(channel, k))|
              && rank < |Chosen(s.gets.done, s.keys, Listens(k))|
              && s.messages.done[i] == Chosen(s.messages.done, s.put, Speaks(channel, k))[rank]
              && s.gets.done[i] == Chosen(s.gets.done, s.keys, Listens(k))[rank]
    {
      SameRank(channel, k, s, i);
      ChosenAt(s.messages.done, i, s.put, Speaks(channel, k));
      ChosenAt(s.gets.done, i, s.keys, Listens(k));
    }
  }

  /** Messages and gets of one channel never pend at the same time. */
  lemma AllServed<M, K>(channel: M -> K, k: K, s: Log<M, K>)
    requires Inv(Channels(channel), s) && Fifo(channel, k, s)
    ensures var sent := Chosen(Range(|s.put|), s.put, Speaks(channel, k));
            var asked := Chosen(Range(|s.keys|), s.keys, Listens(k));
            |Chosen(s.messages.done, s.put, Speaks(channel, k))| == if |sent| <= |asked| then |sent| else |asked|
  {
    hide Chosen, Fate.Accounts;
    Bounded(s.messages, |s.put|);
    Bounded(s.gets, |s.keys|);
    var n := |s.messages.done|;
    SameRank(channel, k, s, n);
    assert s.messages.done[..n] == s.messages.done && s.gets.done[..n] == s.gets.done;
    if i :| 0 <= i < |s.q.waiting| && s.q.waiting[i].key == k {
      ChosenNone(s.messages.pending, s.put, Speaks(channel, k));
    } else {
      ChosenNone(s.gets.pending, s.keys, Listens(k));
    }
  }
}
