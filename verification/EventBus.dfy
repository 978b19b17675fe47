/**
 The event bus of internal/client/events/events.go: fan-out to buffered channels, dropping an event for
 a subscriber whose buffer is full.
 */
module EventBus {
  /** A Go channel with a buffer. Sending on a closed one and closing it again panic, hence the preconditions. */
  class Channel<E> {
    const capacity: nat
    var buffer: seq<E>
    var closed: bool

    constructor (capacity: nat)
      ensures this.capacity == capacity && buffer == [] && !closed
    {
      this.capacity := capacity;
      buffer := [];
      closed := false;
    }

    /** `select` with a send and a default: the event is dropped if the buffer is full. */
    method TrySend(e: E)
      requires !closed
      modifies this`buffer
      ensures buffer == Offered(old(buffer), capacity, e)
    {
      if |buffer| < capacity {
        buffer := buffer + [e];
      }
    }

    method Close()
      requires !closed
      modifies this`closed
      ensures closed
    {
      closed := true;
    }
  }

  /** A buffer after an event was offered to it. */
  function Offered<E>(buffer: seq<E>, capacity: nat, e: E): seq<E> {
    if |buffer| < capacity then buffer + [e] else buffer
  }

  function Without<T(==)>(s: seq<T>, x: T): (r: seq<T>)
    ensures x !in s ==> r == s
  {
    if s == [] then []
    else if s[0] == x then s[1..]
    else [s[0]] + Without(s[1..], x)
  }

  lemma {:induction false} WithoutAt<T>(s: seq<T>, i: nat)
    requires i < |s| && forall j :: 0 <= j < i ==> s[j] != s[i]
    ensures Without(s, s[i]) == s[..i] + s[i + 1..]
  {
    if i > 0 {
      WithoutAt(s[1..], i - 1);
      assert s[..i] == [s[0]] + s[1..][..i - 1];
    }
  }

  class Bus<E> {
    var subscribers: seq<Channel<E>>
    const bufferSize: nat
    var closed: bool

    /** The subscribers are distinct open channels; a closed bus has none. */
    ghost predicate Valid()
      reads this, subscribers
    {
      && (forall i, j :: 0 <= i < j < |subscribers| ==> subscribers[i] != subscribers[j])
      && (forall ch :: ch in subscribers ==> !ch.closed)
      && (closed ==> subscribers == [])
    }

    constructor (bufferSize: int)
      ensures Valid() && subscribers == [] && !closed
      ensures this.bufferSize == if bufferSize <= 0 then 100 else bufferSize
    {
      this.bufferSize := if bufferSize <= 0 then 100 else bufferSize;
      subscribers := [];
      closed := false;
    }

    method Subscribe() returns (ch: Channel<E>)
      requires Valid()
      modifies this`subscribers
      ensures Valid() && fresh(ch) && ch.buffer == []
      ensures ch.closed == closed
      ensures subscribers == if closed then old(subscribers) else old(subscribers) + [ch]
      ensures !closed ==> ch.capacity == bufferSize
    {
      if closed {
        ch := new Channel(0);
        ch.Close();
        return;
      }
      ch := new Channel(bufferSize);
      subscribers := subscribers + [ch];
    }

    /** Closes and removes the channel if it is subscribed, and does nothing otherwise. */
    method Unsubscribe(ch: Channel<E>)
      requires Valid()
      modifies this`subscribers, ch`closed
      ensures Valid() && subscribers == Without(old(subscribers), ch)
      ensures ch.closed == (old(ch.closed) || ch in old(subscribers)) && ch !in subscribers
    {
      for i := 0 to |subscribers|
        invariant Valid() && subscribers == old(subscribers) && ch.closed == old(ch.closed)
        invariant forall j :: 0 <= j < i ==> subscribers[j] != ch
      {
        if subscribers[i] == ch {
          WithoutAt(subscribers, i);
          ch.Close();
          subscribers := subscribers[..i] + subscribers[i + 1..];
          return;
        }
      }
    }

    /** Offers the event to every subscriber once; a closed bus ignores it. */
    method Publish(e: E)
      requires Valid()
      modifies (set ch | ch in subscribers)`buffer
      ensures Valid() && subscribers == old(subscribers)
      ensures forall ch :: ch in subscribers ==> ch.buffer == Offered(old(ch.buffer), ch.capacity, e)
    {
      if closed {
        return;
      }
      for i := 0 to |subscribers|
        invariant Valid()
        invariant forall j :: 0 <= j < i ==>
                    subscribers[j].buffer == Offered(old(subscribers[j].buffer), subscribers[j].capacity, e)
        invariant forall j :: i <= j < |subscribers| ==> subscribers[j].buffer == old(subscribers[j].buffer)
      {
        subscribers[i].TrySend(e);
      }
    }

    /** Closes each subscriber's channel once; a second call does nothing. */
    method Close()
      requires Valid()
      modifies this`subscribers, this`closed, (set ch | ch in subscribers)`closed
      ensures Valid() && closed && subscribers == []
      ensures forall ch :: ch in old(subscribers) ==> ch.closed
    {
      if closed {
        return;
      }
      closed := true;
      for i := 0 to |subscribers|
        invariant subscribers == old(subscribers) && closed
        invariant forall j :: 0 <= j < |subscribers| ==> subscribers[j].closed == (j < i)
      {
        subscribers[i].Close();
      }
      subscribers := [];
    }
  }
}

/**
 The bus with concurrent publishers. `Publish` holds only a read lock, so the sends of several publishers
 interleave; `Subscribe`, `Unsubscribe` and `Close` hold the write lock and run between publications.
 */
module EventBusRuns {
  import opened EventBus
  import opened Options

  /** A send of publication `pub`, when `waiting` events were in the buffer. */
  datatype Offer = Offer(pub: nat, waiting: nat)

  /**
   A subscription: the number of publications begun when it was made and, once its channel is closed, when
   that was; what is buffered, what its reader has taken, and what it was offered, in order.
   */
  datatype Sub = Sub(joined: nat, left: Option<nat>, buffer: seq<nat>, drained: seq<nat>, offers: seq<Offer>)

  /** A publication: the subscribers it has yet to send to, and the ones that had ended when it began. */
  datatype Pub = Pub(todo: seq<nat>, after: set<nat>)

  datatype State = State(capacity: nat, closed: bool, subscribers: seq<nat>, subs: seq<Sub>, pubs: seq<Pub>)

  datatype Event =
    | Subscribe
    | Unsubscribe(id: nat)
    | Begin
    | Send(pub: nat)
    | Drain(id: nat)
    | Close

  predicate Quiet(s: State) { forall p :: p in s.pubs ==> p.todo == [] }

  predicate Enabled(s: State, e: Event) {
    match e
    case Subscribe => Quiet(s)
    case Unsubscribe(_) => Quiet(s)
    case Begin => true
    case Send(p) => p < |s.pubs| && s.pubs[p].todo != [] && s.pubs[p].todo[0] < |s.subs|
    case Drain(id) => id < |s.subs| && s.subs[id].buffer != []
    case Close => Quiet(s)
  }

  function Ended(pubs: seq<Pub>): set<nat> {
    set p | 0 <= p < |pubs| && pubs[p].todo == []
  }

  function CloseSub(sub: Sub, now: nat): Sub { sub.(left := Some(now)) }

  function Next(s: State, e: Event): State
    requires Enabled(s, e)
  {
    match e
    case Subscribe =>
      if s.closed then s.(subs := s.subs + [Sub(|s.pubs|, Some(|s.pubs|), [], [], [])])
      else s.(subs := s.subs + [Sub(|s.pubs|, None, [], [], [])], subscribers := s.subscribers + [|s.subs|])
    case Unsubscribe(id) =>
      if id in s.subscribers && id < |s.subs| then
        s.(subscribers := Without(s.subscribers, id), subs := s.subs[id := CloseSub(s.subs[id], |s.pubs|)])
      else s
    case Begin => s.(pubs := s.pubs + [Pub(if s.closed then [] else s.subscribers, Ended(s.pubs))])
    case Send(p) =>
      var id := s.pubs[p].todo[0];
      var sub := s.subs[id];
      s.(pubs := s.pubs[p := s.pubs[p].(todo := s.pubs[p].todo[1..])],
         subs := s.subs[id := sub.(buffer := Offered(sub.buffer, s.capacity, p),
                                   offers := sub.offers + [Offer(p, |sub.buffer|)])])
    case Drain(id) =>
      var sub := s.subs[id];
      s.(subs := s.subs[id := sub.(buffer := sub.buffer[1..], drained := sub.drained + [sub.buffer[0]])])
    case Close =>
      if s.closed then s
      else State(s.capacity, true, [], seq(|s.subs|, i requires 0 <= i < |s.subs| =>
                   if i in s.subscribers then CloseSub(s.subs[i], |s.pubs|) else s.subs[i]), s.pubs)
  }

  ghost predicate IsRun(capacity: nat, es: seq<Event>)
    decreases |es|, 0
  {
    es == [] || (IsRun(capacity, es[..|es| - 1]) && Enabled(After(capacity, es[..|es| - 1]), es[|es| - 1]))
  }

  ghost function After(capacity: nat, es: seq<Event>): State
    requires IsRun(capacity, es)
    decreases |es|, 1
  {
    if es == [] then State(capacity, false, [], [], [])
    else Next(After(capacity, es[..|es| - 1]), es[|es| - 1])
  }

  // ---- one publication ----

  predicate CanSend(s: State, p: nat, n: nat) {
    p < |s.pubs| && n <= |s.pubs[p].todo| && forall i :: 0 <= i < |s.pubs[p].todo| ==> s.pubs[p].todo[i] < |s.subs|
  }

  /** Publication `p` makes its next `n` sends, and nothing else happens. */
  function SendN(s: State, p: nat, n: nat): State
    requires CanSend(s, p, n)
    decreases n
  {
    if n == 0 then s else SendN(Next(s, Send(p)), p, n - 1)
  }

  /** The publications a subscription was offered, in order. */
  function PubsOf(offers: seq<Offer>): seq<nat> { seq(|offers|, i requires 0 <= i < |offers| => offers[i].pub) }

  ghost predicate Distinct(ids: seq<nat>) {
    forall i, j :: 0 <= i < j < |ids| ==> ids[i] != ids[j]
  }

  ghost predicate SubSent(sub: Sub, sub': Sub, capacity: nat, p: nat, sent: bool) {
    && sub'.buffer == (if sent then Offered(sub.buffer, capacity, p) else sub.buffer)
    && PubsOf(sub'.offers) == (if sent then PubsOf(sub.offers) + [p] else PubsOf(sub.offers))
  }

  /** What the sends of `p` to `ids` make of a state. */
  ghost predicate Sent(s: State, s': State, p: nat, ids: seq<nat>) {
    && |s'.subs| == |s.subs| && s'.subscribers == s.subscribers && s'.closed == s.closed && s'.capacity == s.capacity
    && (forall id :: 0 <= id < |s.subs| ==> SubSent(s.subs[id], s'.subs[id], s.capacity, p, id in ids))
    && |s'.pubs| == |s.pubs| && forall q :: 0 <= q < |s.pubs| && q != p ==> s'.pubs[q] == s.pubs[q]
  }

  lemma SendsOne(s: State, p: nat, n: nat)
    requires CanSend(s, p, n) && 0 < n && Distinct(s.pubs[p].todo)
    ensures var s' := Next(s, Send(p)); var todo := s.pubs[p].todo;
            && Sent(s, s', p, [todo[0]]) && s'.pubs[p].todo == todo[1..]
            && CanSend(s', p, n - 1) && Distinct(todo[1..]) && todo[0] !in todo[1..][..n - 1]
            && todo[..n] == [todo[0]] + todo[1..][..n - 1]
  {
    var s' := Next(s, Send(p));
    var id := s.pubs[p].todo[0];
    assert PubsOf(s'.subs[id].offers) == PubsOf(s.subs[id].offers) + [p];
  }

  lemma SentOneMore(s: State, s1: State, s2: State, p: nat, id: nat, ids: seq<nat>)
    requires Sent(s, s1, p, [id]) && Sent(s1, s2, p, ids) && id !in ids
    ensures Sent(s, s2, p, [id] + ids)
  {
    forall x | 0 <= x < |s.subs|
      ensures SubSent(s.subs[x], s2.subs[x], s.capacity, p, x in [id] + ids)
    {
      assert SubSent(s.subs[x], s1.subs[x], s.capacity, p, x in [id]);
      assert SubSent(s1.subs[x], s2.subs[x], s.capacity, p, x in ids);
    }
  }

  lemma SendNNothing(s: State, p: nat)
    requires CanSend(s, p, 0)
    ensures Sent(s, s, p, s.pubs[p].todo[..0])
  {
  }

  /** The first send and the others put together. */
  lemma SentFirst(s: State, s1: State, s2: State, p: nat, todo: seq<nat>, n: nat)
    requires 0 < n <= |todo| && Sent(s, s1, p, [todo[0]]) && Sent(s1, s2, p, todo[1..][..n - 1])
    requires todo[0] !in todo[1..][..n - 1] && todo[..n] == [todo[0]] + todo[1..][..n - 1]
    ensures Sent(s, s2, p, todo[..n])
  {
    SentOneMore(s, s1, s2, p, todo[0], todo[1..][..n - 1]);
  }

  lemma SendNUnfolds(s: State, p: nat, n: nat, s1: State)
    requires CanSend(s, p, n) && 0 < n && s1 == Next(s, Send(p)) && CanSend(s1, p, n - 1)
    ensures SendN(s, p, n) == SendN(s1, p, n - 1)
  {
  }

  lemma {:induction false} SendNOffers(s: State, p: nat, n: nat)
    requires CanSend(s, p, n) && Distinct(s.pubs[p].todo)
    ensures Sent(s, SendN(s, p, n), p, s.pubs[p].todo[..n])
    ensures SendN(s, p, n).pubs[p].todo == s.pubs[p].todo[n..]
    decreases n
  {
    if n == 0 {
      SendNNothing(s, p);
    } else {
      var todo, s1 := s.pubs[p].todo, Next(s, Send(p));
      SendsOne(s, p, n);
      SendNUnfolds(s, p, n, s1);
      SendNOffers(s1, p, n - 1);
      SentFirst(s, s1, SendN(s1, p, n - 1), p, todo, n);
      assert todo[1..][n - 1..] == todo[n..];
    }
  }

  /** A publication that is not disturbed does what `Publish` does: it offers its event once to every subscriber. */
  lemma AloneIsPublish(s: State)
    requires SubscribersOk(s)
    ensures var p, begun := |s.pubs|, Next(s, Begin);
            && CanSend(begun, p, |begun.pubs[p].todo|)
            && var s' := SendN(begun, p, |begun.pubs[p].todo|);
               && |s'.subs| == |s.subs| && s'.subscribers == s.subscribers && s'.closed == s.closed
               && (forall id :: 0 <= id < |s.subs| ==>
                     s'.subs[id].buffer == if id in s.subscribers then Offered(s.subs[id].buffer, s.capacity, p) else s.subs[id].buffer)
  {
    var begun := Next(s, Begin);
    var todo := begun.pubs[|s.pubs|].todo;
    SendNOffers(begun, |s.pubs|, |todo|);
    assert todo[..|todo|] == todo;
  }

  // ---- what every run keeps ----

  /** The publications among the offers that found room. */
  function Kept(offers: seq<Offer>, capacity: nat): seq<nat> {
    if offers == [] then []
    else
      var last := offers[|offers| - 1];
      Kept(offers[..|offers| - 1], capacity) + if last.waiting < capacity then [last.pub] else []
  }

  ghost predicate Has(sub: Sub, p: nat) {
    exists i :: 0 <= i < |sub.offers| && sub.offers[i].pub == p
  }

  /** Publication `p` began while `sub` was subscribed. */
  predicate During(sub: Sub, p: nat, begun: nat) {
    sub.joined <= p < if sub.left.Some? then sub.left.value else begun
  }

  ghost predicate SubOk(sub: Sub, capacity: nat, begun: nat) {
    && sub.drained + sub.buffer == Kept(sub.offers, capacity)
    && |sub.buffer| <= capacity
    && sub.joined <= begun && (sub.left.Some? ==> sub.left.value <= begun)
    && (forall i :: 0 <= i < |sub.offers| ==> During(sub, sub.offers[i].pub, begun))
    && (forall i, j :: 0 <= i < j < |sub.offers| ==> sub.offers[i].pub != sub.offers[j].pub)
  }

  /** Later offers are not of publications that had ended before an earlier offer's publication began. */
  ghost predicate InOrder(sub: Sub, pubs: seq<Pub>)
    requires forall i :: 0 <= i < |sub.offers| ==> sub.offers[i].pub < |pubs|
  {
    forall i, j :: 0 <= i < j < |sub.offers| ==> sub.offers[j].pub !in pubs[sub.offers[i].pub].after
  }

  ghost predicate SubscribersOk(s: State) {
    && (forall i :: 0 <= i < |s.subscribers| ==> s.subscribers[i] < |s.subs|)
    && (forall i, j :: 0 <= i < j < |s.subscribers| ==> s.subscribers[i] != s.subscribers[j])
    && (forall id :: 0 <= id < |s.subs| ==> (id in s.subscribers <==> s.subs[id].left.None?))
    && (s.closed ==> s.subscribers == [])
  }

  ghost predicate SubsOk(s: State) {
    forall id :: 0 <= id < |s.subs| ==> SubOk(s.subs[id], s.capacity, |s.pubs|) && InOrder(s.subs[id], s.pubs)
  }

  /** What a publication still has to send goes to distinct open subscriptions that have not had it. */
  ghost predicate PubOk(s: State, p: nat)
    requires p < |s.pubs|
  {
    && (forall i, j :: 0 <= i < j < |s.pubs[p].todo| ==> s.pubs[p].todo[i] != s.pubs[p].todo[j])
    && (forall id :: id in s.pubs[p].todo ==>
          id < |s.subs| && s.subs[id].left.None? && s.subs[id].joined <= p && !Has(s.subs[id], p))
    && (forall q :: q in s.pubs[p].after ==> q < |s.pubs| && s.pubs[q].todo == [])
    && (forall id :: 0 <= id < |s.subs| && During(s.subs[id], p, |s.pubs|) ==> Has(s.subs[id], p) || id in s.pubs[p].todo)
  }

  ghost predicate Inv(s: State) {
    SubscribersOk(s) && SubsOk(s) && forall p :: 0 <= p < |s.pubs| ==> PubOk(s, p)
  }

  lemma SubscribeKeepsPub(s: State, p: nat)
    requires Enabled(s, Subscribe) && p < |s.pubs| && PubOk(s, p)
    ensures PubOk(Next(s, Subscribe), p)
  {
    var s' := Next(s, Subscribe);
    assert s.pubs[p] in s.pubs;
    assert s'.subs[..|s.subs|] == s.subs;
  }

  lemma SubscribeKeepsSubs(s: State)
    requires SubsOk(s) && Enabled(s, Subscribe)
    ensures SubsOk(Next(s, Subscribe))
  {
  }

  lemma SubscribeKeepsSubscribers(s: State)
    requires SubscribersOk(s) && Enabled(s, Subscribe)
    ensures SubscribersOk(Next(s, Subscribe))
  {
  }

  lemma SubscribeKeepsInv(s: State)
    requires Inv(s) && Enabled(s, Subscribe)
    ensures Inv(Next(s, Subscribe))
  {
    var s' := Next(s, Subscribe);
    SubscribeKeepsSubs(s);
    SubscribeKeepsSubscribers(s);
    forall p | 0 <= p < |s'.pubs|
      ensures PubOk(s', p)
    {
      SubscribeKeepsPub(s, p);
    }
  }

  lemma {:induction false} WithoutRemoves<T>(s: seq<T>, x: T)
    requires forall i, j :: 0 <= i < j < |s| ==> s[i] != s[j]
    ensures forall i, j :: 0 <= i < j < |Without(s, x)| ==> Without(s, x)[i] != Without(s, x)[j]
    ensures forall y :: y in Without(s, x) <==> y in s && y != x
  {
    if s != [] {
      WithoutRemoves(s[1..], x);
      assert s == [s[0]] + s[1..];
      var rest := Without(s[1..], x);
      forall k | 0 <= k < |rest|
        ensures rest[k] != s[0]
      {
        assert rest[k] in rest;
      }
    }
  }

  /** Between publications, some of the open subscriptions are closed and nothing else changes. */
  ghost predicate ClosesSome(s: State, s': State) {
    && s'.pubs == s.pubs && s'.capacity == s.capacity && |s'.subs| == |s.subs| && Quiet(s)
    && forall id :: 0 <= id < |s.subs| ==>
         s'.subs[id] == s.subs[id] || (s.subs[id].left.None? && s'.subs[id] == CloseSub(s.subs[id], |s.pubs|))
  }

  lemma ClosingKeepsSubs(s: State, s': State)
    requires SubsOk(s) && ClosesSome(s, s')
    ensures SubsOk(s')
  {
    forall id | 0 <= id < |s'.subs|
      ensures SubOk(s'.subs[id], s'.capacity, |s'.pubs|) && InOrder(s'.subs[id], s'.pubs)
    {
      assert SubOk(s.subs[id], s.capacity, |s.pubs|) && InOrder(s.subs[id], s.pubs);
    }
  }

  lemma ClosingKeepsPub(s: State, s': State, p: nat)
    requires ClosesSome(s, s') && p < |s.pubs| && PubOk(s, p)
    ensures PubOk(s', p)
  {
    assert s.pubs[p] in s.pubs;
    forall id | 0 <= id < |s'.subs| && During(s'.subs[id], p, |s'.pubs|)
      ensures Has(s'.subs[id], p)
    {
      assert During(s.subs[id], p, |s.pubs|);
      assert Has(s.subs[id], p);
    }
  }

  lemma ClosingKeepsInv(s: State, s': State)
    requires Inv(s) && ClosesSome(s, s') && SubscribersOk(s')
    ensures Inv(s')
  {
    ClosingKeepsSubs(s, s');
    forall p | 0 <= p < |s'.pubs|
      ensures PubOk(s', p)
    {
      ClosingKeepsPub(s, s', p);
    }
  }

  lemma UnsubscribeKeepsSubscribers(s: State, id: nat)
    requires SubscribersOk(s) && Enabled(s, Unsubscribe(id))
    ensures SubscribersOk(Next(s, Unsubscribe(id)))
  {
    var s' := Next(s, Unsubscribe(id));
    WithoutRemoves(s.subscribers, id);
    assert forall i :: 0 <= i < |s'.subscribers| ==> s'.subscribers[i] in s'.subscribers;
  }

  lemma UnsubscribeKeepsInv(s: State, id: nat)
    requires Inv(s) && Enabled(s, Unsubscribe(id))
    ensures Inv(Next(s, Unsubscribe(id)))
  {
    UnsubscribeKeepsSubscribers(s, id);
    ClosingKeepsInv(s, Next(s, Unsubscribe(id)));
  }

  lemma CloseKeepsInv(s: State)
    requires Inv(s) && Enabled(s, Close)
    ensures Inv(Next(s, Close))
  {
    ClosingKeepsInv(s, Next(s, Close));
  }

  lemma BeginKeepsPub(s: State, p: nat)
    requires p < |s.pubs| && PubOk(s, p)
    requires forall id :: 0 <= id < |s.subs| && s.subs[id].left.Some? ==> s.subs[id].left.value <= |s.pubs|
    ensures PubOk(Next(s, Begin), p)
  {
  }

  lemma BegunIsOk(s: State)
    requires SubscribersOk(s) && SubsOk(s)
    ensures PubOk(Next(s, Begin), |s.pubs|)
  {
    assert forall id :: id in s.subscribers ==> exists i :: 0 <= i < |s.subscribers| && s.subscribers[i] == id;
    forall id | 0 <= id < |s.subs|
      ensures !Has(s.subs[id], |s.pubs|)
    {
      assert SubOk(s.subs[id], s.capacity, |s.pubs|);
    }
  }

  lemma BeginKeepsSubs(s: State)
    requires SubsOk(s)
    ensures SubsOk(Next(s, Begin))
  {
    var s' := Next(s, Begin);
    forall id | 0 <= id < |s'.subs|
      ensures SubOk(s'.subs[id], s'.capacity, |s'.pubs|) && InOrder(s'.subs[id], s'.pubs)
    {
      assert SubOk(s.subs[id], s.capacity, |s.pubs|) && InOrder(s.subs[id], s.pubs);
    }
  }

  lemma BeginKeepsInv(s: State)
    requires Inv(s)
    ensures Inv(Next(s, Begin))
  {
    BeginKeepsSubs(s);
    BegunIsOk(s);
    forall p | 0 <= p < |s.pubs|
      ensures PubOk(Next(s, Begin), p)
    {
      BeginKeepsPub(s, p);
    }
  }

  lemma DrainKeepsSubs(s: State, id: nat)
    requires SubsOk(s) && Enabled(s, Drain(id))
    ensures SubsOk(Next(s, Drain(id)))
  {
    var sub, sub' := s.subs[id], Next(s, Drain(id)).subs[id];
    assert sub'.drained + sub'.buffer == sub.drained + sub.buffer;
  }

  lemma DrainKeepsPub(s: State, id: nat, p: nat)
    requires Enabled(s, Drain(id)) && p < |s.pubs| && PubOk(s, p)
    ensures PubOk(Next(s, Drain(id)), p)
  {
    assert Has(Next(s, Drain(id)).subs[id], p) <==> Has(s.subs[id], p);
  }

  lemma DrainKeepsInv(s: State, id: nat)
    requires Inv(s) && Enabled(s, Drain(id))
    ensures Inv(Next(s, Drain(id)))
  {
    var s' := Next(s, Drain(id));
    DrainKeepsSubs(s, id);
    assert SubscribersOk(s');
    forall p | 0 <= p < |s'.pubs|
      ensures PubOk(s', p)
    {
      DrainKeepsPub(s, id, p);
    }
  }

  lemma SendOffers(s: State, p: nat, id: nat, q: nat)
    requires Enabled(s, Send(p)) && id < |s.subs|
    ensures Has(Next(s, Send(p)).subs[id], q) <==> Has(s.subs[id], q) || (q == p && id == s.pubs[p].todo[0])
  {
    var sub, sub' := s.subs[id], Next(s, Send(p)).subs[id];
    if id == s.pubs[p].todo[0] {
      assert sub'.offers[|sub.offers|].pub == p;
      if Has(sub, q) {
        var i :| 0 <= i < |sub.offers| && sub.offers[i].pub == q;
        assert sub'.offers[i].pub == q;
      }
    }
  }

  lemma SendKeepsSub(s: State, p: nat)
    requires Inv(s) && Enabled(s, Send(p))
    ensures var s' := Next(s, Send(p)); var id := s.pubs[p].todo[0];
            SubOk(s'.subs[id], s.capacity, |s.pubs|) && InOrder(s'.subs[id], s'.pubs)
  {
    var s' := Next(s, Send(p));
    var id := s.pubs[p].todo[0];
    var sub, sub' := s.subs[id], s'.subs[id];
    assert PubOk(s, p) && id in s.pubs[p].todo;
    assert SubOk(sub, s.capacity, |s.pubs|) && InOrder(sub, s.pubs);
    assert sub'.offers[..|sub.offers|] == sub.offers;
    forall i | 0 <= i < |sub.offers|
      ensures sub.offers[i].pub != p && p !in s.pubs[sub.offers[i].pub].after
    {
      assert Has(sub, sub.offers[i].pub);
      assert PubOk(s, sub.offers[i].pub);
    }
  }

  lemma SendKeepsOwnPub(s: State, p: nat)
    requires Inv(s) && Enabled(s, Send(p))
    ensures PubOk(Next(s, Send(p)), p)
  {
    var s' := Next(s, Send(p));
    assert PubOk(s, p);
    forall id | 0 <= id < |s.subs|
      ensures Has(s'.subs[id], p) <==> Has(s.subs[id], p) || id == s.pubs[p].todo[0]
    {
      SendOffers(s, p, id, p);
    }
    var todo := s.pubs[p].todo;
    assert forall id :: id in todo[1..] ==> id in todo && id != todo[0];
    assert forall id :: id in todo ==> id == todo[0] || id in todo[1..];
  }

  lemma SendKeepsOtherPub(s: State, p: nat, q: nat)
    requires Inv(s) && Enabled(s, Send(p)) && q < |s.pubs| && q != p
    ensures PubOk(Next(s, Send(p)), q)
  {
    var s' := Next(s, Send(p));
    assert PubOk(s, q);
    forall id | 0 <= id < |s.subs|
      ensures Has(s'.subs[id], q) <==> Has(s.subs[id], q)
    {
      SendOffers(s, p, id, q);
    }
  }

  lemma SendKeepsInv(s: State, p: nat)
    requires Inv(s) && Enabled(s, Send(p))
    ensures Inv(Next(s, Send(p)))
  {
    var s' := Next(s, Send(p));
    SendKeepsSub(s, p);
    forall q | 0 <= q < |s'.pubs|
      ensures PubOk(s', q)
    {
      if q == p {
        SendKeepsOwnPub(s, p);
      } else {
        SendKeepsOtherPub(s, p, q);
      }
    }
  }

  lemma {:induction false} RunKeepsInv(capacity: nat, es: seq<Event>)
    requires IsRun(capacity, es)
    ensures Inv(After(capacity, es)) && After(capacity, es).capacity == capacity
  {
    if es != [] {
      var s := After(capacity, es[..|es| - 1]);
      RunKeepsInv(capacity, es[..|es| - 1]);
      match es[|es| - 1]
      case Subscribe => SubscribeKeepsInv(s);
      case Unsubscribe(id) => UnsubscribeKeepsInv(s, id);
      case Begin => BeginKeepsInv(s);
      case Send(p) => SendKeepsInv(s, p);
      case Drain(id) => DrainKeepsInv(s, id);
      case Close => CloseKeepsInv(s);
    }
  }

  /**
   Safety: whatever the interleaving, no event is sent to a closed channel, and neither `Unsubscribe` nor
   `Close` closes a channel that is closed already.
   */
  lemma NoSendOrCloseAfterClose(capacity: nat, es: seq<Event>, p: nat)
    requires IsRun(capacity, es)
    ensures var s := After(capacity, es);
            && (p < |s.pubs| && s.pubs[p].todo != [] ==>
                  s.pubs[p].todo[0] < |s.subs| && s.subs[s.pubs[p].todo[0]].left.None?)
            && (forall id :: id in s.subscribers ==> id < |s.subs| && s.subs[id].left.None?)
  {
    RunKeepsInv(capacity, es);
    var s := After(capacity, es);
    if p < |s.pubs| && s.pubs[p].todo != [] {
      assert PubOk(s, p) && s.pubs[p].todo[0] in s.pubs[p].todo;
    }
  }

  /**
   Delivery. What a subscriber has taken followed by what is buffered is the offers that found room, in the
   order they were made. It was offered each publication of its time at most once, and exactly once those
   that have ended; an event is missing only if the buffer was full at its send.
   */
  lemma Delivery(capacity: nat, es: seq<Event>, id: nat)
    requires IsRun(capacity, es) && id < |After(capacity, es).subs|
    ensures var s := After(capacity, es); var sub := s.subs[id];
            && sub.drained + sub.buffer == Kept(sub.offers, capacity)
            && (forall i, j :: 0 <= i < j < |sub.offers| ==> sub.offers[i].pub != sub.offers[j].pub)
            && (forall p: nat :: Has(sub, p) ==> p < |s.pubs| && During(sub, p, |s.pubs|))
            && (forall p: nat :: p < |s.pubs| && During(sub, p, |s.pubs|) && s.pubs[p].todo == [] ==> Has(sub, p))
            && (forall i :: 0 <= i < |sub.offers| && sub.offers[i].pub !in sub.drained + sub.buffer ==>
                  sub.offers[i].waiting >= capacity)
  {
    RunKeepsInv(capacity, es);
    var s := After(capacity, es);
    var sub := s.subs[id];
    forall p | 0 <= p < |s.pubs| && During(sub, p, |s.pubs|) && s.pubs[p].todo == []
      ensures Has(sub, p)
    {
      assert PubOk(s, p);
    }
    forall i | 0 <= i < |sub.offers|
      ensures sub.offers[i].waiting < capacity ==> sub.offers[i].pub in Kept(sub.offers, capacity)
    {
      KeptContains(sub.offers, capacity, i);
    }
  }

  lemma {:induction false} KeptContains(offers: seq<Offer>, capacity: nat, i: nat)
    requires i < |offers|
    ensures offers[i].waiting < capacity ==> offers[i].pub in Kept(offers, capacity)
  {
    if i < |offers| - 1 {
      KeptContains(offers[..|offers| - 1], capacity, i);
    }
  }

  /** `waiting` is what the buffer held at the send: a dropped event met a buffer of `capacity` events. */
  lemma DropsOnlyWhenFull(s: State, p: nat)
    requires Inv(s) && Enabled(s, Send(p))
    ensures var id := s.pubs[p].todo[0]; var sub' := Next(s, Send(p)).subs[id];
            && sub'.offers == s.subs[id].offers + [Offer(p, |s.subs[id].buffer|)]
            && sub'.drained == s.subs[id].drained
            && sub'.buffer == if |s.subs[id].buffer| == s.capacity then s.subs[id].buffer else s.subs[id].buffer + [p]
  {
    assert PubOk(s, p) && s.pubs[p].todo[0] in s.pubs[p].todo;
    assert SubOk(s.subs[s.pubs[p].todo[0]], s.capacity, |s.pubs|);
  }

  // ---- order ----

  ghost predicate Increasing(ps: seq<nat>) {
    forall i, j :: 0 <= i < j < |ps| ==> ps[i] < ps[j]
  }

  /** No publication began before all earlier ones had ended. */
  ghost predicate NoOverlap(pubs: seq<Pub>) {
    forall p, q :: 0 <= q < p < |pubs| ==> q in pubs[p].after
  }

  lemma {:induction false} KeptIncreasing(offers: seq<Offer>, capacity: nat)
    requires forall i, j :: 0 <= i < j < |offers| ==> offers[i].pub < offers[j].pub
    ensures Increasing(Kept(offers, capacity))
    ensures forall p :: p in Kept(offers, capacity) ==> exists i :: 0 <= i < |offers| && offers[i].pub == p
  {
    if offers != [] {
      var n := |offers| - 1;
      KeptIncreasing(offers[..n], capacity);
      var ks := Kept(offers[..n], capacity);
      forall i | 0 <= i < |ks|
        ensures ks[i] < offers[n].pub
      {
        assert ks[i] in ks;
      }
      forall p | p in Kept(offers, capacity)
        ensures exists i :: 0 <= i < |offers| && offers[i].pub == p
      {
        if p in ks {
          var i :| 0 <= i < n && offers[..n][i].pub == p;
          assert offers[i].pub == p;
        } else {
          assert offers[n].pub == p;
        }
      }
    }
  }

  /**
   In order. Of two publications offered to a subscriber, one that had ended before the other began comes
   first; so if publications do not overlap, what the subscriber gets is in the order they were made.
   */
  lemma DeliveredInOrder(capacity: nat, es: seq<Event>, id: nat)
    requires IsRun(capacity, es) && id < |After(capacity, es).subs|
    ensures var s := After(capacity, es); var sub := s.subs[id];
            && (forall i :: 0 <= i < |sub.offers| ==> sub.offers[i].pub < |s.pubs|)
            && (forall i, j :: 0 <= i < j < |sub.offers| ==> sub.offers[j].pub !in s.pubs[sub.offers[i].pub].after)
            && (NoOverlap(s.pubs) ==> Increasing(sub.drained + sub.buffer))
  {
    RunKeepsInv(capacity, es);
    var s := After(capacity, es);
    var sub := s.subs[id];
    assert SubOk(sub, capacity, |s.pubs|) && InOrder(sub, s.pubs);
    if NoOverlap(s.pubs) {
      forall i, j | 0 <= i < j < |sub.offers|
        ensures sub.offers[i].pub < sub.offers[j].pub
      {
        assert sub.offers[j].pub !in s.pubs[sub.offers[i].pub].after;
      }
      KeptIncreasing(sub.offers, capacity);
    }
  }

  /** What stays true of every world a run reaches; `r` stands for such a property. */
  ghost predicate Closed(r: State -> bool, capacity: nat) {
    r(State(capacity, false, [], [], [])) && forall s, e :: r(s) && Enabled(s, e) ==> r(Next(s, e))
  }

  lemma Onward(r: State -> bool, capacity: nat, s: State, e: Event, s': State)
    requires Closed(r, capacity) && r(s) && Enabled(s, e) && Next(s, e) == s'
    ensures r(s')
  {
  }

  ghost predicate Reachable(capacity: nat, s: State) {
    exists es :: IsRun(capacity, es) && After(capacity, es) == s
  }

  lemma StartIsReachable(capacity: nat)
    ensures Reachable(capacity, State(capacity, false, [], [], []))
  {
    assert IsRun(capacity, []) && After(capacity, []) == State(capacity, false, [], [], []);
  }

  lemma NextIsReachable(capacity: nat, s: State, e: Event)
    requires Reachable(capacity, s) && Enabled(s, e)
    ensures Reachable(capacity, Next(s, e))
  {
    var es :| IsRun(capacity, es) && After(capacity, es) == s;
    assert (es + [e])[..|es|] == es;
    assert IsRun(capacity, es + [e]);
  }

  lemma ReachableIsClosed(capacity: nat)
    ensures Closed((s: State) => Reachable(capacity, s), capacity)
  {
    StartIsReachable(capacity);
    forall s: State, e | Reachable(capacity, s) && Enabled(s, e)
      ensures Reachable(capacity, Next(s, e))
    {
      NextIsReachable(capacity, s, e);
    }
  }

  lemma ReachableKeepsInv(capacity: nat, s: State)
    requires Reachable(capacity, s)
    ensures Inv(s)
  {
    var es :| IsRun(capacity, es) && After(capacity, es) == s;
    RunKeepsInv(capacity, es);
  }

  lemma {:induction false} SendNOnward(r: State -> bool, capacity: nat, s: State, p: nat, n: nat)
    requires Closed(r, capacity) && r(s) && CanSend(s, p, n)
    ensures r(SendN(s, p, n))
    decreases n
  {
    if n > 0 {
      Onward(r, capacity, s, Send(p), Next(s, Send(p)));
      SendNOnward(r, capacity, Next(s, Send(p)), p, n - 1);
    }
  }

  /** Publication `p` still owes the event to `x` and, later, to `y`. */
  ghost predicate Owes(s: State, p: nat, x: nat, y: nat) {
    p < |s.pubs| && exists i, j :: 0 <= i < j < |s.pubs[p].todo| && s.pubs[p].todo[i] == x && s.pubs[p].todo[j] == y
  }

  lemma OtherCanSend(s: State, s': State, p: nat, q: nat, ids: seq<nat>, n: nat)
    requires Sent(s, s', p, ids) && p != q && CanSend(s, q, n)
    ensures CanSend(s', q, n) && s'.pubs[q] == s.pubs[q]
  {
  }

  lemma RestCanSend(s: State, s': State, p: nat, n: nat)
    requires CanSend(s, p, n) && Sent(s, s', p, s.pubs[p].todo[..n]) && s'.pubs[p].todo == s.pubs[p].todo[n..]
    ensures CanSend(s', p, |s.pubs[p].todo| - n)
  {
  }

  /** The sends of `p` up to `x`, those of `q`, and the rest of those of `p`. */
  lemma InterleavedSends(s: State, p: nat, q: nat, i: nat) returns (s1: State, s2: State, s3: State)
    requires p < |s.pubs| && q < |s.pubs| && p != q && i <= |s.pubs[p].todo|
    requires CanSend(s, p, i) && CanSend(s, q, |s.pubs[q].todo|) && Distinct(s.pubs[p].todo) && Distinct(s.pubs[q].todo)
    ensures s1 == SendN(s, p, i) && CanSend(s1, q, |s.pubs[q].todo|)
    ensures s2 == SendN(s1, q, |s.pubs[q].todo|) && CanSend(s2, p, |s.pubs[p].todo| - i)
    ensures s3 == SendN(s2, p, |s.pubs[p].todo| - i)
    ensures Sent(s, s1, p, s.pubs[p].todo[..i]) && Sent(s1, s2, q, s.pubs[q].todo) && Sent(s2, s3, p, s.pubs[p].todo[i..])
  {
    var tp, tq := s.pubs[p].todo, s.pubs[q].todo;
    s1 := SendN(s, p, i);
    SendNOffers(s, p, i);
    OtherCanSend(s, s1, p, q, tp[..i], |tq|);
    RestCanSend(s, s1, p, i);
    s2 := SendN(s1, q, |tq|);
    SendNOffers(s1, q, |tq|);
    assert tq[..|tq|] == tq;
    OtherCanSend(s1, s2, q, p, tq, |tp| - i);
    s3 := SendN(s2, p, |tp| - i);
    SendNOffers(s2, p, |tp| - i);
    assert tp[i..][..|tp| - i] == tp[i..];
  }

  lemma OpenPub(s: State, p: nat)
    requires Inv(s) && p < |s.pubs|
    ensures Distinct(s.pubs[p].todo) && CanSend(s, p, |s.pubs[p].todo|)
  {
    var todo := s.pubs[p].todo;
    assert PubOk(s, p);
    forall i | 0 <= i < |todo|
      ensures todo[i] < |s.subs|
    {
      assert todo[i] in todo;
    }
  }

  /** One send of `p` and one of `q` to a subscription, which the other sends leave out. */
  lemma OfferedBoth(s: State, s1: State, s2: State, s3: State, p: nat, q: nat, tp1: seq<nat>, tq: seq<nat>, tp2: seq<nat>, id: nat)
    requires Sent(s, s1, p, tp1) && Sent(s1, s2, q, tq) && Sent(s2, s3, p, tp2)
    requires id < |s.subs| && id in tq && (id in tp1 <==> id !in tp2)
    ensures |s3.subs| == |s.subs|
    ensures PubsOf(s3.subs[id].offers) == PubsOf(s.subs[id].offers) + if id in tp1 then [p, q] else [q, p]
  {
    assert SubSent(s.subs[id], s1.subs[id], s.capacity, p, id in tp1);
    assert SubSent(s1.subs[id], s2.subs[id], s.capacity, q, true);
    assert SubSent(s2.subs[id], s3.subs[id], s.capacity, p, id in tp2);
  }

  /** In a distinct list, `x` is in the part up to it and `y` in the part after it, and not the other way. */
  lemma SplitBetween(ids: seq<nat>, i: nat, j: nat)
    requires Distinct(ids) && i < j < |ids|
    ensures ids[i] in ids[..i + 1] && ids[i] !in ids[i + 1..]
    ensures ids[j] !in ids[..i + 1] && ids[j] in ids[i + 1..]
  {
    assert ids[..i + 1][i] == ids[i] && ids[i + 1..][j - (i + 1)] == ids[j];
  }

  lemma ReversingSends(s: State, p: nat, q: nat, x: nat, y: nat) returns (n: nat, s1: State, s2: State, s3: State)
    requires Inv(s) && p != q && Owes(s, p, x, y) && Owes(s, q, x, y)
    ensures n <= |s.pubs[p].todo| && CanSend(s, p, n) && s1 == SendN(s, p, n)
    ensures CanSend(s1, q, |s.pubs[q].todo|) && s2 == SendN(s1, q, |s.pubs[q].todo|)
    ensures CanSend(s2, p, |s.pubs[p].todo| - n) && s3 == SendN(s2, p, |s.pubs[p].todo| - n)
    ensures x < |s.subs| == |s3.subs| && y < |s.subs|
    ensures PubsOf(s3.subs[x].offers) == PubsOf(s.subs[x].offers) + [p, q]
    ensures PubsOf(s3.subs[y].offers) == PubsOf(s.subs[y].offers) + [q, p]
  {
    OpenPub(s, p);
    OpenPub(s, q);
    var tp, tq := s.pubs[p].todo, s.pubs[q].todo;
    var i: nat, j: nat :| i < j < |tp| && tp[i] == x && tp[j] == y;
    SplitBetween(tp, i, j);
    n := i + 1;
    s1, s2, s3 := InterleavedSends(s, p, q, n);
    OfferedBoth(s, s1, s2, s3, p, q, tp[..n], tq, tp[n..], x);
    OfferedBoth(s, s1, s2, s3, p, q, tp[..n], tq, tp[n..], y);
  }

  lemma OnwardToReverse(r: State -> bool, capacity: nat, s: State, p: nat, q: nat, x: nat, y: nat) returns (s': State)
    requires Closed(r, capacity) && r(s) && Inv(s) && p != q && Owes(s, p, x, y) && Owes(s, q, x, y)
    ensures r(s') && x < |s.subs| == |s'.subs| && y < |s.subs|
    ensures PubsOf(s'.subs[x].offers) == PubsOf(s.subs[x].offers) + [p, q]
    ensures PubsOf(s'.subs[y].offers) == PubsOf(s.subs[y].offers) + [q, p]
  {
    var n, s1, s2, s3 := ReversingSends(s, p, q, x, y);
    SendNOnward(r, capacity, s, p, n);
    SendNOnward(r, capacity, s1, q, |s.pubs[q].todo|);
    SendNOnward(r, capacity, s2, p, |s.pubs[p].todo| - n);
    s' := s3;
  }

  /**
   The other half: whenever two publications both still owe their events to two subscribers, the sends can
   go on so that the subscribers are offered the two events in opposite orders. Without overlap that never
   happens, as `DeliveredInOrder` shows.
   */
  lemma OverlapCanReverse(capacity: nat, s: State, p: nat, q: nat, x: nat, y: nat) returns (s': State)
    requires Reachable(capacity, s) && p != q && Owes(s, p, x, y) && Owes(s, q, x, y)
    ensures Reachable(capacity, s') && x < |s.subs| == |s'.subs| && y < |s.subs|
    ensures PubsOf(s'.subs[x].offers) == PubsOf(s.subs[x].offers) + [p, q]
    ensures PubsOf(s'.subs[y].offers) == PubsOf(s.subs[y].offers) + [q, p]
  {
    ReachableKeepsInv(capacity, s);
    ReachableIsClosed(capacity);
    s' := OnwardToReverse((v: State) => Reachable(capacity, v), capacity, s, p, q, x, y);
  }

  /** Two subscribers that got the first two publications in opposite orders. */
  function OppositeOrders(): State {
    State(2, false, [0, 1],
          [Sub(0, None, [0, 1], [], [Offer(0, 0), Offer(1, 1)]), Sub(0, None, [1, 0], [], [Offer(1, 0), Offer(0, 1)])],
          [Pub([], {}), Pub([], {})])
  }

  function BothBegun(): State {
    State(2, false, [0, 1], [Sub(0, None, [], [], []), Sub(0, None, [], [], [])], [Pub([0, 1], {}), Pub([0, 1], {})])
  }

  lemma TwoPublishersBegin(r: State -> bool)
    requires Closed(r, 2)
    ensures r(BothBegun())
  {
    var sub := Sub(0, None, [], [], []);
    var s0 := State(2, false, [], [], []);
    var s1 := State(2, false, [0], [sub], []);
    Onward(r, 2, s0, Subscribe, s1);
    var s2 := State(2, false, [0, 1], [sub, sub], []);
    Onward(r, 2, s1, Subscribe, s2);
    var s3 := s2.(pubs := [Pub([0, 1], {})]);
    assert Ended([]) == {} && s2.pubs + [Pub([0, 1], {})] == s3.pubs;
    Onward(r, 2, s2, Begin, s3);
    assert Ended(s3.pubs) == {} && s3.pubs + [Pub([0, 1], {})] == BothBegun().pubs;
    Onward(r, 2, s3, Begin, BothBegun());
  }

  lemma TwoPublishersRace(r: State -> bool)
    requires Closed(r, 2) && r(BothBegun())
    ensures r(OppositeOrders())
  {
    var none := Sub(0, None, [], [], []);
    var a1 := Sub(0, None, [0], [], [Offer(0, 0)]);
    var a2 := Sub(0, None, [0, 1], [], [Offer(0, 0), Offer(1, 1)]);
    var b1 := Sub(0, None, [1], [], [Offer(1, 0)]);
    var both, second, done := Pub([0, 1], {}), Pub([1], {}), Pub([], {});
    assert both.todo[1..] == [1] && second.todo[1..] == [];
    var s5 := State(2, false, [0, 1], [a1, none], [second, both]);
    SendsTo(r, BothBegun(), 0, 0, a1, s5);
    var s6 := State(2, false, [0, 1], [a2, none], [second, second]);
    SendsTo(r, s5, 1, 0, a2, s6);
    var s7 := State(2, false, [0, 1], [a2, b1], [second, done]);
    SendsTo(r, s6, 1, 1, b1, s7);
    SendsTo(r, s7, 0, 1, OppositeOrders().subs[1], OppositeOrders());
  }

  /** One send, with its effect on the subscription spelled out. */
  lemma SendsTo(r: State -> bool, s: State, p: nat, id: nat, sub: Sub, s': State)
    requires Closed(r, 2) && r(s) && s.capacity == 2
    requires p < |s.pubs| && s.pubs[p].todo != [] && s.pubs[p].todo[0] == id < |s.subs|
    requires sub.joined == s.subs[id].joined && sub.left == s.subs[id].left && sub.drained == s.subs[id].drained
    requires sub.buffer == Offered(s.subs[id].buffer, 2, p)
    requires sub.offers == s.subs[id].offers + [Offer(p, |s.subs[id].buffer|)]
    requires s'.capacity == 2 && s'.closed == s.closed && s'.subscribers == s.subscribers
    requires s'.subs == s.subs[id := sub]
    requires s'.pubs == s.pubs[p := Pub(s.pubs[p].todo[1..], s.pubs[p].after)]
    ensures r(s')
  {
    Onward(r, 2, s, Send(p), s');
  }

  /** With overlapping publishers there is no common order: a reachable run delivers 0, 1 to one and 1, 0 to another. */
  lemma OverlapCanReverseOrder()
    ensures Reachable(2, OppositeOrders())
    ensures OppositeOrders().subs[0].buffer == [0, 1] && OppositeOrders().subs[1].buffer == [1, 0]
  {
    var r := (s: State) => Reachable(2, s);
    ReachableIsClosed(2);
    assert Closed(r, 2);
    TwoPublishersBegin(r);
    TwoPublishersRace(r);
  }
}
