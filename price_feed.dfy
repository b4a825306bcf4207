// The live half of the price-feed client: one WebSocket to the ticker, the
// reconnect counter with exponential backoff, and the listeners every valid
// tick is fanned out to.
module PriceFeed {
  import opened Common
  import opened PriceHistory

  /** A listener callback, by identity. */
  type ListenerId = nat

  const MaxReconnectAttempts: nat := 5
  const ReconnectDelayMs: nat := 1000

  // ---------------------------------------------------------------------
  // Reconnect backoff

  function Pow2(n: nat): (r: nat)
    ensures r >= 1
  {
    if n == 0 then 1 else 2 * Pow2(n - 1)
  }

  /** `reconnectDelay * 2^(attempt - 1)`: the delay armed for reconnect number `attempt`. */
  function BackoffDelay(attempt: nat): (d: nat)
    requires attempt >= 1
    ensures d >= ReconnectDelayMs
  {
    ReconnectDelayMs * Pow2(attempt - 1)
  }

  /** The five delays are 1 s, 2 s, 4 s, 8 s and 16 s, each twice the one before. */
  lemma BackoffSchedule(attempt: nat)
    requires 1 <= attempt < MaxReconnectAttempts
    ensures BackoffDelay(attempt + 1) == 2 * BackoffDelay(attempt)
    ensures [BackoffDelay(1), BackoffDelay(2), BackoffDelay(3), BackoffDelay(4), BackoffDelay(5)]
            == [1000, 2000, 4000, 8000, 16000]
  {
  }

  /** An armed `setTimeout`: its delay, and the address its callback captured. */
  datatype Timer = Timer(delayMs: nat, address: Option<string>)

  /** The counter after a reconnect request, and the timers the request armed. */
  datatype Reconnect = Reconnect(attempts: nat, armed: seq<Timer>)

  /**
   * `scheduleReconnect(address)`: once the counter has reached the maximum
   * nothing happens; otherwise the counter goes up by one and one timer is
   * armed with that attempt's backoff delay.
   */
  function ScheduleStep(attempts: nat, address: Option<string>): (r: Reconnect)
    ensures attempts <= MaxReconnectAttempts ==> r.attempts <= MaxReconnectAttempts
    ensures |r.armed| <= 1
  {
    if attempts >= MaxReconnectAttempts then Reconnect(attempts, [])
    else Reconnect(attempts + 1, [Timer(BackoffDelay(attempts + 1), address)])
  }

  /** The close handler: reconnect, without an address, while attempts remain. */
  function CloseStep(attempts: nat): (r: Reconnect)
    ensures r == ScheduleStep(attempts, None)
  {
    if attempts < MaxReconnectAttempts then ScheduleStep(attempts, None) else Reconnect(attempts, [])
  }

  /** The timers armed by `k` close events in a row, with no open event between them. */
  function CloseRun(attempts: nat, k: nat): (r: seq<Timer>)
    decreases k
    ensures |r| <= k
    ensures |r| <= if attempts < MaxReconnectAttempts then MaxReconnectAttempts - attempts else 0
  {
    if k == 0 then []
    else
      var step := CloseStep(attempts);
      step.armed + CloseRun(step.attempts, k - 1)
  }

  /**
   * The timers armed by `k` failed connection attempts in a row for the same
   * `address`: each failure requests a reconnect carrying the address, and the
   * timer it arms is the one whose firing makes the next attempt.
   */
  function ReconnectRun(attempts: nat, address: Option<string>, k: nat): (r: seq<Timer>)
    decreases k
    ensures |r| <= k
    ensures |r| <= if attempts < MaxReconnectAttempts then MaxReconnectAttempts - attempts else 0
  {
    if k == 0 then []
    else
      var step := ScheduleStep(attempts, address);
      step.armed + ReconnectRun(step.attempts, address, k - 1)
  }

  /** How many timers `k` reconnect requests in a row arm from a counter of `a`. */
  function ArmedCount(a: nat, k: nat): nat
    requires a <= MaxReconnectAttempts
  {
    if k < MaxReconnectAttempts - a then k else MaxReconnectAttempts - a
  }

  /** `n` timers carrying `address`, with the delays of attempts `from`, `from + 1`, .... */
  function Backoffs(from: nat, address: Option<string>, n: nat): seq<Timer>
    requires from >= 1
    decreases n
  {
    if n == 0 then [] else [Timer(BackoffDelay(from), address)] + Backoffs(from + 1, address, n - 1)
  }

  lemma {:induction false} BackoffsAt(from: nat, address: Option<string>, n: nat, i: nat)
    requires from >= 1 && i < n
    decreases n
    ensures |Backoffs(from, address, n)| == n
    ensures Backoffs(from, address, n)[i] == Timer(BackoffDelay(from + i), address)
  {
    if i > 0 {
      BackoffsAt(from + 1, address, n - 1, i - 1);
    } else if n > 1 {
      BackoffsAt(from + 1, address, n - 1, 0);
    }
  }

  /**
   * From a counter of `a`, `k` reconnect requests in a row arm
   * `min(k, 5 - a)` timers, with the delays of attempts `a + 1`, `a + 2`, ...,
   * all carrying the requested address.
   */
  lemma {:induction false} ReconnectRunShape(a: nat, address: Option<string>, k: nat)
    requires a <= MaxReconnectAttempts
    decreases k
    ensures ReconnectRun(a, address, k) == Backoffs(a + 1, address, ArmedCount(a, k))
  {
    if k > 0 && a < MaxReconnectAttempts {
      ReconnectRunShape(a + 1, address, k - 1);
      ReconnectRunStep(a, address, k);
    } else if k > 0 {
      ReconnectRunAtCap(address, k);
    }
  }

  /** The inductive step of `ReconnectRunShape`: one more request below the cap puts one more backoff in front. */
  lemma ReconnectRunStep(a: nat, address: Option<string>, k: nat)
    requires a < MaxReconnectAttempts && k > 0
    requires ReconnectRun(a + 1, address, k - 1) == Backoffs(a + 2, address, ArmedCount(a + 1, k - 1))
    ensures ReconnectRun(a, address, k) == Backoffs(a + 1, address, ArmedCount(a, k))
  {
    var n := ArmedCount(a, k);
    assert n >= 1 && ArmedCount(a + 1, k - 1) == n - 1;
    ReconnectRunCons(a, address, k);
    BackoffsCons(a + 1, address, n);
  }

  lemma BackoffsCons(from: nat, address: Option<string>, n: nat)
    requires from >= 1 && n >= 1
    ensures Backoffs(from, address, n) == [Timer(BackoffDelay(from), address)] + Backoffs(from + 1, address, n - 1)
  {
  }

  /** Below the cap, a reconnect request arms the next attempt's timer, carrying the address. */
  lemma ReconnectRunCons(a: nat, address: Option<string>, k: nat)
    requires a < MaxReconnectAttempts && k > 0
    ensures ReconnectRun(a, address, k) == [Timer(BackoffDelay(a + 1), address)] + ReconnectRun(a + 1, address, k - 1)
  {
    assert ScheduleStep(a, address) == Reconnect(a + 1, [Timer(BackoffDelay(a + 1), address)]);
  }

  /** At the cap, reconnect requests arm nothing. */
  lemma {:induction false} ReconnectRunAtCap(address: Option<string>, k: nat)
    ensures ReconnectRun(MaxReconnectAttempts, address, k) == []
  {
    if k > 0 {
      ReconnectRunAtCap(address, k - 1);
    }
  }

  /**
   * A failing reconnect chain for `address`, from a fresh counter, arms at
   * most five timers, with delays 1 s, 2 s, 4 s, 8 s and 16 s in that order,
   * each carrying the address so that its firing tries again; then it stops.
   */
  lemma FailingReconnectsFromFresh(address: string, k: nat)
    ensures |ReconnectRun(0, Some(address), k)| == (if k < MaxReconnectAttempts then k else MaxReconnectAttempts)
    ensures forall i :: 0 <= i < |ReconnectRun(0, Some(address), k)| ==>
              ReconnectRun(0, Some(address), k)[i] == Timer(ReconnectDelayMs * Pow2(i), Some(address))
  {
    ReconnectRunShape(0, Some(address), k);
    var n := ArmedCount(0, k);
    if n > 0 {
      BackoffsAt(1, Some(address), n, 0);
    }
    forall i | 0 <= i < n
      ensures ReconnectRun(0, Some(address), k)[i] == Timer(ReconnectDelayMs * Pow2(i), Some(address))
    {
      BackoffsAt(1, Some(address), n, i);
    }
  }

  /** A run of close events is a run of reconnect requests without an address. */
  lemma {:induction false} CloseRunUnaddressed(a: nat, k: nat)
    decreases k
    ensures CloseRun(a, k) == ReconnectRun(a, None, k)
  {
    if k > 0 {
      assert CloseStep(a) == ScheduleStep(a, None);
      CloseRunUnaddressed(CloseStep(a).attempts, k - 1);
    }
  }

  /**
   * From a counter of `a`, `k` consecutive close events arm
   * `min(k, 5 - a)` timers, with the delays of attempts `a + 1`, `a + 2`, ...,
   * none of them carrying an address.
   */
  lemma CloseRunShape(a: nat, k: nat)
    requires a <= MaxReconnectAttempts
    ensures CloseRun(a, k) == Backoffs(a + 1, None, ArmedCount(a, k))
  {
    CloseRunUnaddressed(a, k);
    ReconnectRunShape(a, None, k);
  }

  /**
   * From a fresh counter, any number of drops arms at most five reconnect
   * timers, with delays 1 s, 2 s, 4 s, 8 s and 16 s in that order.
   */
  lemma CloseRunFromFresh(k: nat)
    ensures |CloseRun(0, k)| == (if k < MaxReconnectAttempts then k else MaxReconnectAttempts)
    ensures forall i :: 0 <= i < |CloseRun(0, k)| ==>
              CloseRun(0, k)[i].delayMs == ReconnectDelayMs * Pow2(i) && CloseRun(0, k)[i].address.None?
  {
    CloseRunShape(0, k);
    var n := ArmedCount(0, k);
    if n > 0 {
      BackoffsAt(1, None, n, 0);
    }
    forall i | 0 <= i < n
      ensures CloseRun(0, k)[i] == Timer(ReconnectDelayMs * Pow2(i), None)
    {
      BackoffsAt(1, None, n, i);
    }
  }


  // ---------------------------------------------------------------------
  // Inbound frames

  /** What `parseFloat(d.p)` gave. */
  datatype PriceField = Numeric(value: real) | NotANumber

  /** The `d` object of a ticker frame; `p` and `t` may be missing. */
  datatype TickBody = TickBody(p: Option<PriceField>, t: Option<int>)

  /** A frame as `JSON.parse` sees it. */
  datatype Frame =
    | Unparseable
    | Message(d: Option<TickBody>, id: Option<int>, hasResult: bool)

  /** How the message handler treats a frame. */
  datatype Inbound = Tick(candle: Candle) | InvalidPrice | Ack | Unhandled | ParseError

  /** `d.t ? floor(d.t / 1000) : floor(Date.now() / 1000)`: a missing or zero stamp means now. */
  function TickTime(t: Option<int>, nowMs: int): (s: int)
    ensures t.Some? && t.value != 0 ==> s == SecondsOf(t.value)
    ensures t.None? || t.value == 0 ==> s == SecondsOf(nowMs)
  {
    if t.Some? && t.value != 0 then SecondsOf(t.value) else SecondsOf(nowMs)
  }

  /**
   * The message handler's decision: a frame with `d.p` is a tick when the
   * price parses to a positive number, and is dropped otherwise; a frame
   * without it is the subscription acknowledgement when `id` is 1 and
   * `result` is truthy; anything else is ignored.
   */
  function Classify(f: Frame, nowMs: int): (r: Inbound)
    ensures r.ParseError? <==> f.Unparseable?
    ensures r.Tick? <==> f.Message? && f.d.Some? && f.d.value.p.Some?
                         && f.d.value.p.value.Numeric? && f.d.value.p.value.value > 0.0
    ensures r.Tick? ==> var price := f.d.value.p.value.value;
                        r.candle == Candle(TickTime(f.d.value.t, nowMs), price, price, price, price)
    ensures r.InvalidPrice? <==> f.Message? && f.d.Some? && f.d.value.p.Some?
                                 && !(f.d.value.p.value.Numeric? && f.d.value.p.value.value > 0.0)
    ensures r.Ack? <==> f.Message? && (f.d.None? || f.d.value.p.None?) && f.id == Some(1) && f.hasResult
  {
    match f
    case Unparseable => ParseError
    case Message(d, id, hasResult) =>
      if d.Some? && d.value.p.Some? then
        match d.value.p.value
        case Numeric(price) =>
          if price > 0.0 then Tick(Candle(TickTime(d.value.t, nowMs), price, price, price, price))
          else InvalidPrice
        case NotANumber => InvalidPrice
      else if id == Some(1) && hasResult then Ack
      else Unhandled
  }

  /** A price of 0.00021 stamped 1700000000000 ms becomes one flat candle at second 1700000000. */
  lemma ClassifyExample(nowMs: int)
    ensures Classify(Message(Some(TickBody(Some(Numeric(0.00021)), Some(1700000000000))), None, false), nowMs)
            == Tick(Candle(1700000000, 0.00021, 0.00021, 0.00021, 0.00021))
    ensures Classify(Message(Some(TickBody(Some(Numeric(0.0)), None)), None, false), nowMs) == InvalidPrice
    ensures Classify(Message(Some(TickBody(Some(Numeric(-3.0)), None)), None, false), nowMs) == InvalidPrice
    ensures Classify(Message(Some(TickBody(Some(NotANumber), None)), None, false), nowMs) == InvalidPrice
  {
  }

  // ---------------------------------------------------------------------
  // Subscription and listeners

  /** The JSON message sent when the socket opens. */
  datatype Subscription = Subscription(kind: string, id: int, params: seq<string>)

  function SubscriptionFor(address: string): (r: Subscription)
    ensures r.kind == "SUBSCRIPTION" && r.id == 1 && |r.params| == 2
    ensures r.params[0] == "quote@token_agg_event@16_" + address
    ensures r.params[1] == "datahub@tokenMetric@16_" + address
  {
    Subscription("SUBSCRIPTION", 1, ["quote@token_agg_event@16_" + address, "datahub@tokenMetric@16_" + address])
  }

  /** One call of a listener with a candle. */
  datatype Delivery = Delivery(listener: ListenerId, candle: Candle)

  /** `listeners.forEach(l => l(data))`: one call per entry, in list order. */
  function FanOut(ls: seq<ListenerId>, c: Candle): (r: seq<Delivery>)
    ensures |r| == |ls|
    ensures forall i :: 0 <= i < |ls| ==> r[i] == Delivery(ls[i], c)
  {
    seq(|ls|, i requires 0 <= i < |ls| => Delivery(ls[i], c))
  }

  /** `listeners.filter(l => l !== cb)`. */
  function Without(ls: seq<ListenerId>, cb: ListenerId): (r: seq<ListenerId>)
    ensures cb !in r
  {
    if ls == [] then []
    else (if ls[0] == cb then [] else [ls[0]]) + Without(ls[1..], cb)
  }

  /** Removing keeps every other entry, as often as it occurred. */
  lemma {:induction false} WithoutCounts(ls: seq<ListenerId>, cb: ListenerId)
    ensures multiset(Without(ls, cb)) == multiset(ls)[cb := 0]
  {
    if ls != [] {
      WithoutCounts(ls[1..], cb);
      assert ls == [ls[0]] + ls[1..];
    }
  }

  /** Removing from a concatenation removes from each part: the survivors keep their order. */
  lemma {:induction false} WithoutAppend(a: seq<ListenerId>, b: seq<ListenerId>, cb: ListenerId)
    ensures Without(a + b, cb) == Without(a, cb) + Without(b, cb)
  {
    if a != [] {
      WithoutAppend(a[1..], b, cb);
      assert (a + b)[1..] == a[1..] + b;
    } else {
      assert a + b == b;
    }
  }

  /** Removing a callback that is not registered changes nothing. */
  lemma {:induction false} WithoutAbsent(ls: seq<ListenerId>, cb: ListenerId)
    requires cb !in ls
    ensures Without(ls, cb) == ls
  {
    if ls != [] {
      WithoutAbsent(ls[1..], cb);
      assert ls == [ls[0]] + ls[1..];
    }
  }

  /**
   * Adding a callback and then removing it leaves the list as removing it
   * alone would, and no later tick reaches it.
   */
  lemma AddThenRemove(ls: seq<ListenerId>, cb: ListenerId, c: Candle)
    ensures Without(ls + [cb], cb) == Without(ls, cb)
    ensures forall d :: d in FanOut(Without(ls + [cb], cb), c) ==> d.listener != cb
  {
    WithoutAppend(ls, [cb], cb);
    assert Without([cb], cb) == [];
    assert Without(ls, cb) + [] == Without(ls, cb);
  }

  // ---------------------------------------------------------------------
  // The client

  class PriceFeedService {
    /** `wsConnection !== null`. */
    var connected: bool
    /** The address the live socket's open handler subscribes with. */
    var socketAddress: string
    var reconnectAttempts: nat
    var listeners: seq<ListenerId>
    /** Timers armed and not yet fired. */
    var timers: seq<Timer>
    /** Addresses a socket was created for, in order. */
    var sockets: seq<string>
    /** Messages sent on the socket. */
    var sent: seq<Subscription>
    /** Listener calls made so far, in order. */
    var delivered: seq<Delivery>

    /** The reconnect counter never exceeds its maximum. */
    predicate Valid()
      reads this
    {
      reconnectAttempts <= MaxReconnectAttempts
    }

    constructor ()
      ensures Valid()
      ensures !connected && reconnectAttempts == 0 && listeners == []
      ensures timers == [] && sockets == [] && sent == [] && delivered == []
    {
      connected := false;
      socketAddress := "";
      reconnectAttempts := 0;
      listeners := [];
      timers := [];
      sockets := [];
      sent := [];
      delivered := [];
    }

    /** `scheduleReconnect(address)`. */
    method ScheduleReconnect(address: Option<string>)
      requires Valid()
      modifies this
      ensures Valid()
      ensures reconnectAttempts == ScheduleStep(old(reconnectAttempts), address).attempts
      ensures timers == old(timers) + ScheduleStep(old(reconnectAttempts), address).armed
      ensures connected == old(connected) && socketAddress == old(socketAddress)
      ensures listeners == old(listeners) && sockets == old(sockets)
      ensures sent == old(sent) && delivered == old(delivered)
    {
      if reconnectAttempts >= MaxReconnectAttempts {
        return;
      }
      reconnectAttempts := reconnectAttempts + 1;
      var delay := ReconnectDelayMs * Pow2(reconnectAttempts - 1);
      timers := timers + [Timer(delay, address)];
    }

    /**
     * `connectWebSocket(address)`: create a socket for the address; when the
     * socket constructor throws, schedule a reconnect that carries the address.
     */
    method ConnectWebSocket(address: string, constructorThrows: bool)
      requires Valid()
      modifies this
      ensures Valid()
      ensures !constructorThrows ==>
                && connected && socketAddress == address && sockets == old(sockets) + [address]
                && reconnectAttempts == old(reconnectAttempts) && timers == old(timers)
      ensures constructorThrows ==>
                && connected == old(connected) && socketAddress == old(socketAddress) && sockets == old(sockets)
                && reconnectAttempts == ScheduleStep(old(reconnectAttempts), Some(address)).attempts
                && timers == old(timers) + ScheduleStep(old(reconnectAttempts), Some(address)).armed
      ensures listeners == old(listeners) && sent == old(sent) && delivered == old(delivered)
    {
      if constructorThrows {
        ScheduleReconnect(Some(address));
      } else {
        connected := true;
        socketAddress := address;
        sockets := sockets + [address];
      }
    }

    /**
     * A timer fires: it leaves the armed set, and reconnects only when its
     * callback captured a non-empty address.
     */
    method FireTimer(i: nat, constructorThrows: bool)
      requires Valid() && i < |timers|
      modifies this
      ensures Valid()
      ensures var t := old(timers[i]);
              var rest := old(timers[..i] + timers[i + 1..]);
              if t.address.Some? && t.address.value != [] then
                && (!constructorThrows ==>
                      && connected && socketAddress == t.address.value && sockets == old(sockets) + [t.address.value]
                      && reconnectAttempts == old(reconnectAttempts) && timers == rest)
                && (constructorThrows ==>
                      && connected == old(connected) && socketAddress == old(socketAddress) && sockets == old(sockets)
                      && reconnectAttempts == ScheduleStep(old(reconnectAttempts), t.address).attempts
                      && timers == rest + ScheduleStep(old(reconnectAttempts), t.address).armed)
              else
                && timers == rest && sockets == old(sockets) && connected == old(connected)
                && socketAddress == old(socketAddress) && reconnectAttempts == old(reconnectAttempts)
      ensures listeners == old(listeners) && sent == old(sent) && delivered == old(delivered)
    {
      var t := timers[i];
      timers := timers[..i] + timers[i + 1..];
      if t.address.Some? && t.address.value != [] {
        ConnectWebSocket(t.address.value, constructorThrows);
      }
    }

    /** The socket opened: reset the counter and send the one subscription. */
    method OnOpen()
      requires Valid()
      modifies this
      ensures Valid()
      ensures reconnectAttempts == 0
      ensures sent == old(sent) + (if connected then [SubscriptionFor(socketAddress)] else [])
      ensures connected == old(connected) && socketAddress == old(socketAddress) && timers == old(timers)
      ensures listeners == old(listeners) && sockets == old(sockets) && delivered == old(delivered)
    {
      reconnectAttempts := 0;
      if connected {
        sent := sent + [SubscriptionFor(socketAddress)];
      }
    }

    /** A frame arrived: only a valid tick reaches the listeners. */
    method OnMessage(f: Frame, nowMs: int)
      requires Valid()
      modifies this
      ensures Valid()
      ensures delivered == old(delivered) + (match Classify(f, nowMs)
                                             case Tick(c) => FanOut(listeners, c)
                                             case _ => [])
      ensures connected == old(connected) && socketAddress == old(socketAddress)
      ensures reconnectAttempts == old(reconnectAttempts) && timers == old(timers)
      ensures listeners == old(listeners) && sockets == old(sockets) && sent == old(sent)
    {
      match Classify(f, nowMs)
      case Tick(c) => NotifyListeners(c);
      case _ =>
    }

    /** The socket closed: drop it and, while attempts remain, schedule a reconnect without an address. */
    method OnClose()
      requires Valid()
      modifies this
      ensures Valid()
      ensures !connected && socketAddress == old(socketAddress)
      ensures reconnectAttempts == CloseStep(old(reconnectAttempts)).attempts
      ensures timers == old(timers) + CloseStep(old(reconnectAttempts)).armed
      ensures listeners == old(listeners) && sockets == old(sockets) && sent == old(sent) && delivered == old(delivered)
    {
      connected := false;
      if reconnectAttempts < MaxReconnectAttempts {
        ScheduleReconnect(None);
      }
    }

    /** `addListener`: append, duplicates kept. */
    method AddListener(cb: ListenerId)
      requires Valid()
      modifies this
      ensures Valid()
      ensures listeners == old(listeners) + [cb]
      ensures connected == old(connected) && socketAddress == old(socketAddress)
      ensures reconnectAttempts == old(reconnectAttempts) && timers == old(timers)
      ensures sockets == old(sockets) && sent == old(sent) && delivered == old(delivered)
    {
      listeners := listeners + [cb];
    }

    /** `removeListener`: drop every entry that is `cb`. */
    method RemoveListener(cb: ListenerId)
      requires Valid()
      modifies this
      ensures Valid()
      ensures listeners == Without(old(listeners), cb)
      ensures connected == old(connected) && socketAddress == old(socketAddress)
      ensures reconnectAttempts == old(reconnectAttempts) && timers == old(timers)
      ensures sockets == old(sockets) && sent == old(sent) && delivered == old(delivered)
    {
      listeners := Without(listeners, cb);
    }

    /** `notifyListeners`: call each entry once, in list order. */
    method NotifyListeners(c: Candle)
      requires Valid()
      modifies this
      ensures Valid()
      ensures delivered == old(delivered) + FanOut(listeners, c)
      ensures connected == old(connected) && socketAddress == old(socketAddress)
      ensures reconnectAttempts == old(reconnectAttempts) && timers == old(timers)
      ensures listeners == old(listeners) && sockets == old(sockets) && sent == old(sent)
    {
      var i := 0;
      while i < |listeners|
        invariant 0 <= i <= |listeners|
        invariant delivered == old(delivered) + FanOut(listeners[..i], c)
        invariant connected == old(connected) && socketAddress == old(socketAddress) && reconnectAttempts == old(reconnectAttempts) && timers == old(timers)
        invariant listeners == old(listeners) && sockets == old(sockets) && sent == old(sent)
      {
        assert FanOut(listeners[..i + 1], c) == FanOut(listeners[..i], c) + [Delivery(listeners[i], c)];
        delivered := delivered + [Delivery(listeners[i], c)];
        i := i + 1;
      }
      assert listeners[..i] == listeners;
    }

    /** `disconnect`: drop the socket, every listener and the counter. */
    method Disconnect()
      requires Valid()
      modifies this
      ensures Valid()
      ensures !connected && listeners == [] && reconnectAttempts == 0
      ensures socketAddress == old(socketAddress)
      ensures timers == old(timers) && sockets == old(sockets) && sent == old(sent) && delivered == old(delivered)
    {
      if connected {
        connected := false;
      }
      listeners := [];
      reconnectAttempts := 0;
    }
  }
}
