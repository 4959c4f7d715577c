/**
 * The plugin's cached connection to its host: a broker, the stream the host offered on it, and
 * the client dialed on that stream. Every method of the source runs under one mutex, so any
 * number of threads make a single sequence of atomic calls; the runs below are those sequences.
 */
module HostBroker {
  import opened Options

  newtype uint32 = x: int | 0 <= x < 0x1_0000_0000

  type BrokerRef = nat

  /** `serial` tells two dialed connections apart even when they share broker and stream. */
  datatype Client = Client(broker: BrokerRef, stream: uint32, serial: nat)

  /** `pluginHostState`, without its mutex. */
  datatype Cache = Cache(broker: Option<BrokerRef>, brokerID: uint32, client: Option<Client>)

  /** The connection info the host sent for a stream is kept until its deadline (`timeoutWait`). */
  datatype Net = Net(now: nat, deadlines: map<(BrokerRef, uint32), nat>, dialed: nat)

  datatype Event =
    | Rebound
    | Dialed(client: Client)
    | DialFailed
    | Answered(thread: nat, answer: Option<Client>)

  datatype World = World(cache: Cache, net: Net, log: seq<Event>)

  /** `lucky` says whether a dial on a live stream works; on an expired one it never does. */
  datatype Step =
    | SetBroker(broker: Option<BrokerRef>)
    | SetBrokerID(id: uint32, lucky: bool)
    | Host(thread: nat, lucky: bool)
    | Offer(on: BrokerRef, id: uint32)
    | Tick

  const TIMEOUT_WAIT: nat := 5

  predicate Live(net: Net, broker: BrokerRef, id: uint32) {
    (broker, id) in net.deadlines && net.now < net.deadlines[(broker, id)]
  }

  function AfterDial(w: World, lucky: bool): World {
    var c := w.cache;
    if c.client.Some? || c.broker.None? || c.brokerID == 0 then w
    else if lucky && Live(w.net, c.broker.value, c.brokerID) then
      var client := Client(c.broker.value, c.brokerID, w.net.dialed);
      World(c.(client := Some(client)), w.net.(dialed := w.net.dialed + 1), w.log + [Dialed(client)])
    else w.(log := w.log + [DialFailed])
  }

  function Next(w: World, s: Step): World {
    match s
    case SetBroker(b) => World(Cache(b, 0, None), w.net, w.log + [Rebound])
    case SetBrokerID(id, lucky) =>
      AfterDial(World(w.cache.(brokerID := id, client := None), w.net, w.log + [Rebound]), lucky)
    case Host(thread, lucky) =>
      var d := AfterDial(w, lucky);
      d.(log := d.log + [Answered(thread, d.cache.client)])
    case Offer(b, id) =>
      w.(net := w.net.(deadlines := w.net.deadlines[(b, id) := w.net.now + TIMEOUT_WAIT]))
    case Tick => w.(net := w.net.(now := w.net.now + 1))
  }

  function Run(w: World, steps: seq<Step>): World
    decreases |steps|
  {
    if steps == [] then w else Run(Next(w, steps[0]), steps[1..])
  }

  const START := World(Cache(None, 0, None), Net(0, map[], 0), [])

  // ----- What a history means, told without the cache

  /** The connection made since the last rebind. */
  function Connected(log: seq<Event>): Option<Client> {
    if log == [] then None
    else match log[|log| - 1]
      case Rebound => None
      case Dialed(c) => Some(c)
      case DialFailed => Connected(log[..|log| - 1])
      case Answered(_, _) => Connected(log[..|log| - 1])
  }

  /** Whether every dial since the last rebind failed, there being at least one. */
  predicate OnlyFailures(log: seq<Event>) {
    if log == [] then false
    else match log[|log| - 1]
      case Rebound => false
      case Dialed(_) => false
      case DialFailed => Connected(log[..|log| - 1]).None?
      case Answered(_, _) => OnlyFailures(log[..|log| - 1])
  }

  predicate Rebinds(log: seq<Event>, i: nat, j: nat) {
    exists k :: i <= k < j && k < |log| && log[k] == Rebound
  }

  /** Dials are made only while unconnected, and every answer is the current connection. */
  ghost predicate Orderly(log: seq<Event>) {
    forall i :: 0 <= i < |log| ==>
      && (log[i].Dialed? || log[i].DialFailed? ==> Connected(log[..i]).None?)
      && (log[i].Answered? ==> log[i].answer == Connected(log[..i]))
  }

  predicate Bound(c: Cache) {
    c.broker.Some? && c.brokerID != 0
  }

  ghost predicate Inv(w: World) {
    && Orderly(w.log)
    && w.cache.client == Connected(w.log)
    && (w.cache.client.Some? ==>
      var c := w.cache.client.value;
      w.cache.broker == Some(c.broker) && w.cache.brokerID == c.stream != 0 && c.serial < w.net.dialed)
    && (Bound(w.cache) && w.cache.client.None? ==> OnlyFailures(w.log))
    && (!Bound(w.cache) ==> !OnlyFailures(w.log))
  }

  lemma OrderlyExtends(log: seq<Event>, e: Event)
    requires Orderly(log)
    requires e.Dialed? || e.DialFailed? ==> Connected(log).None?
    requires e.Answered? ==> e.answer == Connected(log)
    ensures Orderly(log + [e])
    ensures (log + [e])[..|log|] == log
  {
    hide Connected;
    var more := log + [e];
    assert more[..|log|] == log;
    forall i | 0 <= i < |more|
      ensures more[i].Dialed? || more[i].DialFailed? ==> Connected(more[..i]).None?
      ensures more[i].Answered? ==> more[i].answer == Connected(more[..i])
    {
      if i < |log| {
        assert more[..i] == log[..i] && more[i] == log[i];
      }
    }
  }

  /** What one more event says. */
  lemma HistoryGrows(log: seq<Event>, e: Event)
    ensures Connected(log + [e]) == match e
              case Rebound => None
              case Dialed(c) => Some(c)
              case _ => Connected(log)
    ensures OnlyFailures(log + [e]) == match e
              case DialFailed => Connected(log).None?
              case Answered(_, _) => OnlyFailures(log)
              case _ => false
  {
    assert (log + [e])[..|log|] == log;
  }

  /** All of `Inv` but the promise of a dial attempt, which a bind is about to make good. */
  ghost predicate Binding(w: World) {
    && Orderly(w.log)
    && w.cache.client == Connected(w.log)
    && (w.cache.client.Some? ==> Inv(w))
    && (!Bound(w.cache) ==> !OnlyFailures(w.log))
  }

  lemma DialKeepsInv(w: World, lucky: bool)
    requires Binding(w)
    ensures Inv(AfterDial(w, lucky))
  {
    hide Orderly, Connected, OnlyFailures;
    var d := AfterDial(w, lucky);
    if d != w {
      var e := d.log[|w.log|];
      assert d.log == w.log + [e];
      OrderlyExtends(w.log, e);
      HistoryGrows(w.log, e);
    }
  }

  /** A rebind forgets the client, and with it everything the history said of the old stream. */
  lemma RebindKeepsBinding(w: World, cache: Cache)
    requires Inv(w) && cache.client.None?
    ensures Binding(World(cache, w.net, w.log + [Rebound]))
  {
    hide Orderly, Connected, OnlyFailures;
    OrderlyExtends(w.log, Rebound);
    HistoryGrows(w.log, Rebound);
  }

  lemma HostKeepsInv(w: World, thread: nat, lucky: bool)
    requires Inv(w)
    ensures Inv(Next(w, Host(thread, lucky)))
  {
    hide Orderly, Connected, OnlyFailures;
    DialKeepsInv(w, lucky);
    hide AfterDial;
    var d := AfterDial(w, lucky);
    var e := Answered(thread, d.cache.client);
    OrderlyExtends(d.log, e);
    HistoryGrows(d.log, e);
  }

  lemma StepKeepsInv(w: World, s: Step)
    requires Inv(w)
    ensures Inv(Next(w, s))
  {
    hide Orderly, AfterDial;
    match s
    case SetBroker(b) => RebindKeepsBinding(w, Cache(b, 0, None));
    case SetBrokerID(id, lucky) =>
      var c := w.cache.(brokerID := id, client := None);
      RebindKeepsBinding(w, c);
      DialKeepsInv(World(c, w.net, w.log + [Rebound]), lucky);
    case Host(thread, lucky) => HostKeepsInv(w, thread, lucky);
    case Offer(_, _) =>
    case Tick =>
  }

  lemma {:induction false} RunKeepsInv(w: World, steps: seq<Step>)
    requires Inv(w)
    ensures Inv(Run(w, steps))
    decreases |steps|
  {
    if steps != [] {
      StepKeepsInv(w, steps[0]);
      RunKeepsInv(Next(w, steps[0]), steps[1..]);
    }
  }

  /** A connection stays the current one until the next rebind. */
  lemma {:induction false} ConnectedLasts(log: seq<Event>, i: nat, j: nat)
    requires Orderly(log) && i <= j <= |log| && !Rebinds(log, i, j)
    requires Connected(log[..i]).Some?
    ensures Connected(log[..j]) == Connected(log[..i])
    decreases j
  {
    if i < j {
      assert log[j - 1] != Rebound;
      ConnectedLasts(log, i, j - 1);
      assert log[..j][..j - 1] == log[..j - 1];
    }
  }

  // ----- Main results

  /** A cached client was dialed on the current broker and the current, non-zero stream. */
  lemma Coherent(steps: seq<Step>)
    ensures var c := Run(START, steps).cache;
            c.client.Some? ==> c.broker == Some(c.client.value.broker) && c.brokerID == c.client.value.stream != 0
  {
    RunKeepsInv(START, steps);
  }

  /** Between two rebinds at most one dial succeeds, and none is attempted after it. */
  lemma OneDialPerBinding(steps: seq<Step>, i: nat, j: nat)
    requires var log := Run(START, steps).log;
             i < j < |log| && log[i].Dialed? && !Rebinds(log, i, j)
    ensures var log := Run(START, steps).log;
            !log[j].Dialed? && !log[j].DialFailed?
  {
    var log := Run(START, steps).log;
    RunKeepsInv(START, steps);
    assert log[..i + 1][..i] == log[..i];
    assert Connected(log[..i + 1]).Some?;
    ConnectedLasts(log, i + 1, j);
  }

  /** Between two rebinds all threads that get a client get the same one, and never lose it again. */
  lemma OneClientPerBinding(steps: seq<Step>, i: nat, j: nat)
    requires var log := Run(START, steps).log;
             i < j < |log| && log[i].Answered? && log[j].Answered? && log[i].answer.Some? && !Rebinds(log, i, j)
    ensures var log := Run(START, steps).log;
            log[j].answer == log[i].answer
  {
    var log := Run(START, steps).log;
    RunKeepsInv(START, steps);
    ConnectedLasts(log, i, j);
  }

  // ----- Bindings, told from the calls

  /** The last `SetBroker` among some calls gave this broker. */
  ghost predicate BrokerGiven(steps: seq<Step>, b: BrokerRef) {
    exists i :: 0 <= i < |steps| && steps[i] == SetBroker(Some(b))
      && forall k :: i < k < |steps| ==> !steps[k].SetBroker?
  }

  /** The last rebind among some calls bound this stream, on the broker given before it. */
  ghost predicate StreamGiven(steps: seq<Step>, b: BrokerRef, id: uint32) {
    exists j :: 0 <= j < |steps| && LastBind(steps, j, b, id)
  }

  lemma BrokerGivenStep(steps: seq<Step>, s: Step, b: BrokerRef)
    ensures BrokerGiven(steps + [s], b) <==> if s.SetBroker? then s == SetBroker(Some(b)) else BrokerGiven(steps, b)
  {
    var all := steps + [s];
    assert all[|steps|] == s && forall i :: 0 <= i < |steps| ==> all[i] == steps[i];
    if i :| 0 <= i < |steps| && steps[i] == SetBroker(Some(b)) && forall k :: i < k < |steps| ==> !steps[k].SetBroker? {
      assert all[i] == SetBroker(Some(b));
    }
  }

  lemma {:induction false} BrokerByCalls(steps: seq<Step>, b: BrokerRef)
    ensures Run(START, steps).cache.broker == Some(b) <==> BrokerGiven(steps, b)
    decreases |steps|
  {
    if steps != [] {
      hide BrokerGiven;
      var k := |steps| - 1;
      assert steps == steps[..k] + [steps[k]];
      RunOneMore(START, steps);
      BrokerByCalls(steps[..k], b);
      BrokerGivenStep(steps[..k], steps[k], b);
    }
  }

  /** The bind at `j` is the last rebind among these calls. */
  ghost predicate LastBind(steps: seq<Step>, j: nat, b: BrokerRef, id: uint32)
    requires j < |steps|
  {
    && steps[j].SetBrokerID? && steps[j].id == id && BrokerGiven(steps[..j], b)
    && forall k :: j < k < |steps| ==> !steps[k].SetBroker? && !steps[k].SetBrokerID?
  }

  lemma StreamGivenStep(steps: seq<Step>, s: Step, b: BrokerRef, id: uint32)
    ensures StreamGiven(steps + [s], b, id) <==>
            match s
            case SetBroker(_) => false
            case SetBrokerID(i, _) => i == id && BrokerGiven(steps, b)
            case _ => StreamGiven(steps, b, id)
  {
    hide BrokerGiven;
    var all, n := steps + [s], |steps|;
    assert all[n] == s && all[..n] == steps;
    forall j | 0 <= j < n
      ensures LastBind(all, j, b, id) <==> LastBind(steps, j, b, id) && !s.SetBroker? && !s.SetBrokerID?
    {
      assert all[..j] == steps[..j] && forall i :: 0 <= i < n ==> all[i] == steps[i];
    }
    assert LastBind(all, n, b, id) <==> s.SetBrokerID? && s.id == id && BrokerGiven(steps, b);
    hide LastBind;
  }

  /** A stream is bound exactly if the calls bound it: after its broker, and with no rebind since. */
  lemma {:induction false} BoundByCalls(steps: seq<Step>, b: BrokerRef, id: uint32)
    requires id != 0
    ensures Run(START, steps).cache.broker == Some(b) && Run(START, steps).cache.brokerID == id <==>
            StreamGiven(steps, b, id)
    decreases |steps|
  {
    if steps != [] {
      hide BrokerGiven, StreamGiven;
      var k := |steps| - 1;
      assert steps == steps[..k] + [steps[k]];
      RunOneMore(START, steps);
      BoundByCalls(steps[..k], b, id);
      BrokerByCalls(steps[..k], b);
      StreamGivenStep(steps[..k], steps[k], b, id);
    }
  }

  /**
   * `Host` answers nil exactly while the calls so far have bound no stream, or while every dial since
   * the bind has failed.
   */
  lemma HostNilExactly(steps: seq<Step>, thread: nat, lucky: bool)
    ensures var w := Next(Run(START, steps), Host(thread, lucky));
            && w.log[|w.log| - 1] == Answered(thread, w.cache.client)
            && (w.cache.client.None? <==>
                 (forall b, id | id != 0 :: !StreamGiven(steps, b, id)) || OnlyFailures(w.log))
  {
    hide StreamGiven;
    RunKeepsInv(START, steps);
    StepKeepsInv(Run(START, steps), Host(thread, lucky));
    var w := Next(Run(START, steps), Host(thread, lucky));
    ConnectedRulesOutFailure(w.log);
    var c := Run(START, steps).cache;
    if Bound(c) {
      BoundByCalls(steps, c.broker.value, c.brokerID);
    }
    forall b, id: uint32 | id != 0 && StreamGiven(steps, b, id) ensures Bound(c) {
      BoundByCalls(steps, b, id);
    }
  }

  lemma {:induction false} ConnectedRulesOutFailure(log: seq<Event>)
    ensures Connected(log).Some? ==> !OnlyFailures(log)
  {
    if log != [] && log[|log| - 1].Answered? {
      ConnectedRulesOutFailure(log[..|log| - 1]);
    }
  }

  /** No rebind: the calls that may follow a bind without replacing it. */
  predicate NoRebind(steps: seq<Step>) {
    forall s <- steps :: !s.SetBroker? && !s.SetBrokerID?
  }

  lemma {:induction false} ClientLasts(w: World, steps: seq<Step>)
    requires w.cache.client.Some? && NoRebind(steps)
    ensures Run(w, steps).cache == w.cache
    decreases |steps|
  {
    if steps != [] {
      assert steps[0] in steps;
      ClientLasts(Next(w, steps[0]), steps[1..]);
    }
  }

  /**
   * Eager dialing beats expiry. A bind whose dial works while the stream is live serves every later
   * call until the next rebind, however much time passes and whatever the broker forgets.
   */
  lemma EagerDialLasts(w: World, id: uint32, idle: seq<Step>, thread: nat, lucky: bool)
    requires w.cache.broker.Some? && id != 0 && Live(w.net, w.cache.broker.value, id) && NoRebind(idle)
    ensures var client := Client(w.cache.broker.value, id, w.net.dialed);
            var later := Run(Next(w, SetBrokerID(id, true)), idle);
            Next(later, Host(thread, lucky)).log == later.log + [Answered(thread, Some(client))]
  {
    ClientLasts(Next(w, SetBrokerID(id, true)), idle);
  }

  /** The calls other than `SetBroker`. */
  predicate KeepsBroker(steps: seq<Step>) {
    forall s <- steps :: !s.SetBroker?
  }

  lemma {:induction false} BrokerLasts(w: World, steps: seq<Step>)
    requires KeepsBroker(steps)
    ensures Run(w, steps).cache.broker == w.cache.broker
    decreases |steps|
  {
    if steps != [] {
      assert steps[0] in steps;
      BrokerLasts(Next(w, steps[0]), steps[1..]);
    }
  }

  lemma {:induction false} RunOfSum(w: World, a: seq<Step>, b: seq<Step>)
    ensures Run(w, a + b) == Run(Run(w, a), b)
    decreases |a|
  {
    if a == [] {
      assert a + b == b;
    } else {
      assert (a + b)[1..] == a[1..] + b;
      RunOfSum(Next(w, a[0]), a[1..], b);
    }
  }

  /** `Host` called after some steps, and its answer. */
  function Asked(steps: seq<Step>, thread: nat, lucky: bool): Option<Client> {
    Next(Run(START, steps), Host(thread, lucky)).cache.client
  }

  /**
   * From start to answer: a broker is given, then, whatever happens short of another broker, a stream
   * live on it is bound and its dial works; every call from then on until the next rebind answers a
   * client on that broker and that stream.
   */
  lemma BindServes(before: seq<Step>, b: BrokerRef, between: seq<Step>, id: uint32, idle: seq<Step>,
                   thread: nat, lucky: bool)
    requires id != 0 && KeepsBroker(between) && NoRebind(idle)
    requires Live(Run(START, before + [SetBroker(Some(b))] + between).net, b, id)
    ensures var steps := before + [SetBroker(Some(b))] + between + [SetBrokerID(id, true)] + idle;
            var answer := Asked(steps, thread, lucky);
            answer.Some? && answer.value.broker == b && answer.value.stream == id
  {
    var w := Run(START, before + [SetBroker(Some(b))] + between);
    RunOfSum(START, before + [SetBroker(Some(b))], between);
    RunOneMore(START, before + [SetBroker(Some(b))]);
    assert (before + [SetBroker(Some(b))])[..|before|] == before;
    BrokerLasts(Run(START, before + [SetBroker(Some(b))]), between);
    EagerDialLasts(w, id, idle, thread, lucky);
    var bind := before + [SetBroker(Some(b))] + between + [SetBrokerID(id, true)];
    RunOneMore(START, bind);
    assert bind[..|bind| - 1] == before + [SetBroker(Some(b))] + between;
    RunOfSum(START, bind, idle);
    ClientLasts(Next(w, SetBrokerID(id, true)), idle);
  }

  /** Once the broker has been taken away, every call answers nil until another is given. */
  lemma NoBrokerNoClient(before: seq<Step>, after: seq<Step>, thread: nat, lucky: bool)
    requires KeepsBroker(after)
    ensures Asked(before + [SetBroker(None)] + after, thread, lucky) == None
  {
    var gone := before + [SetBroker(None)];
    RunOneMore(START, gone);
    assert gone[..|before|] == before;
    RunOfSum(START, gone, after);
    BrokerLasts(Run(START, gone), after);
    RunKeepsInv(START, gone + after);
  }

  /** An offered stream stays live for five ticks, and longer only if it is offered again. */
  lemma {:induction false} OfferLasts(w: World, b: BrokerRef, id: uint32, steps: seq<Step>)
    ensures Ticks(steps) < 5 ==> Live(Run(Next(w, Offer(b, id)), steps).net, b, id)
    ensures Ticks(steps) >= 5 && (forall s <- steps :: s != Offer(b, id)) ==>
              !Live(Run(Next(w, Offer(b, id)), steps).net, b, id)
  {
    DeadlineAfter(Next(w, Offer(b, id)), b, id, steps);
  }

  /** Only offers change a deadline, and only to a later one. */
  lemma {:induction false} DeadlineAfter(w: World, b: BrokerRef, id: uint32, steps: seq<Step>)
    requires (b, id) in w.net.deadlines && w.net.deadlines[(b, id)] <= w.net.now + TIMEOUT_WAIT
    ensures var net := Run(w, steps).net;
            && net.now == w.net.now + Ticks(steps)
            && (b, id) in net.deadlines && w.net.deadlines[(b, id)] <= net.deadlines[(b, id)]
            && ((forall s <- steps :: s != Offer(b, id)) ==> net.deadlines[(b, id)] == w.net.deadlines[(b, id)])
    decreases |steps|
  {
    if steps != [] {
      var k := |steps| - 1;
      RunOneMore(w, steps);
      DeadlineAfter(w, b, id, steps[..k]);
      assert forall s <- steps[..k] :: s in steps;
      assert steps[k] in steps;
    }
  }

  /** The stream is bound but neither connected nor offered any longer. */
  predicate Expired(w: World) {
    Bound(w.cache) && w.cache.client.None? && !Live(w.net, w.cache.broker.value, w.cache.brokerID)
  }

  /** Only time and calls to `Host`: neither a rebind nor a fresh offer of the stream. */
  predicate Idle(steps: seq<Step>) {
    forall s <- steps :: s.Host? || s.Tick?
  }

  lemma {:induction false} ExpiredStaysExpired(w: World, steps: seq<Step>)
    requires Expired(w) && Idle(steps)
    ensures Expired(Run(w, steps))
    decreases |steps|
  {
    if steps != [] {
      assert steps[0] in steps;
      ExpiredStaysExpired(Next(w, steps[0]), steps[1..]);
    }
  }

  /** Why the dial cannot wait: once an undialed stream has expired, every call answers nil for good. */
  lemma LateDialNeverWorks(w: World, steps: seq<Step>, thread: nat, lucky: bool)
    requires Expired(w) && Idle(steps)
    ensures var later := Next(Run(w, steps), Host(thread, lucky));
            later.log[|later.log| - 1] == Answered(thread, None)
  {
    ExpiredStaysExpired(w, steps);
  }

  /** The number of ticks among some steps. */
  function Ticks(steps: seq<Step>): nat {
    if steps == [] then 0 else Ticks(steps[..|steps| - 1]) + if steps[|steps| - 1].Tick? then 1 else 0
  }

  /** Step `i` is a call whose dial works, before the deadline of the stream bound in `w`. */
  predicate DialsInTime(w: World, steps: seq<Step>, i: nat)
    requires i < |steps| && Bound(w.cache)
  {
    && steps[i].Host? && steps[i].lucky
    && (w.cache.broker.value, w.cache.brokerID) in w.net.deadlines
    && w.net.now + Ticks(steps[..i]) < w.net.deadlines[(w.cache.broker.value, w.cache.brokerID)]
  }

  lemma {:induction false} RunOneMore(w: World, steps: seq<Step>)
    requires steps != []
    ensures Run(w, steps) == Next(Run(w, steps[..|steps| - 1]), steps[|steps| - 1])
    decreases |steps|
  {
    if |steps| > 1 {
      var rest := steps[1..];
      RunOneMore(Next(w, steps[0]), rest);
      assert rest[..|rest| - 1] == steps[..|steps| - 1][1..];
    }
  }

  /** Idling moves the clock and leaves binding and deadlines alone. */
  lemma {:induction false} IdleRun(w: World, steps: seq<Step>)
    requires Bound(w.cache) && Idle(steps)
    ensures var later := Run(w, steps);
            && later.cache.broker == w.cache.broker && later.cache.brokerID == w.cache.brokerID
            && later.net.deadlines == w.net.deadlines && later.net.now == w.net.now + Ticks(steps)
    decreases |steps|
  {
    if steps != [] {
      var k := |steps| - 1;
      assert steps[k] in steps && forall s <- steps[..k] :: s in steps;
      RunOneMore(w, steps);
      IdleRun(w, steps[..k]);
    }
  }

  /**
   * A dial that failed at bind time is made up for lazily: after any calls and any time, there is a
   * client exactly if some call's dial worked before the stream's deadline.
   */
  lemma {:induction false} LazyRetryConnects(w: World, id: uint32, steps: seq<Step>)
    requires w.cache.broker.Some? && id != 0 && Idle(steps)
    ensures var bound := Next(w, SetBrokerID(id, false));
            && bound.cache == Cache(w.cache.broker, id, None)
            && (Run(bound, steps).cache.client.Some? <==>
                 exists i :: 0 <= i < |steps| && DialsInTime(bound, steps, i))
    decreases |steps|
  {
    var bound := Next(w, SetBrokerID(id, false));
    if steps != [] {
      var k := |steps| - 1;
      var front := steps[..k];
      assert steps[k] in steps && forall s <- front :: s in steps;
      LazyRetryConnects(w, id, front);
      RunOneMore(bound, steps);
      IdleRun(bound, front);
      assert forall i :: 0 <= i < k ==> steps[..i] == front[..i];
      assert forall i :: 0 <= i < k ==> (DialsInTime(bound, steps, i) <==> DialsInTime(bound, front, i));
      if Run(bound, steps).cache.client.Some? && Run(bound, front).cache.client.None? {
        assert DialsInTime(bound, steps, k);
      }
    }
  }

  // ----- The source's own form

  /** The environment: brokers, their streams and the clock. */
  class Network {
    var net: Net

    constructor ()
      ensures net == START.net
    {
      net := Net(0, map[], 0);
    }

    /** `GRPCBroker.Dial`: fails on an expired stream, and on a live one whenever it likes. */
    method Dial(broker: BrokerRef, id: uint32) returns (client: Option<Client>, lucky: bool)
      modifies this
      ensures client ==
        if lucky && Live(old(net), broker, id) then Some(Client(broker, id, old(net.dialed))) else None
      ensures net == if client.Some? then old(net).(dialed := old(net.dialed) + 1) else old(net)
    {
      lucky := *;
      client := None;
      if lucky && Live(net, broker, id) {
        client := Some(Client(broker, id, net.dialed));
        net := net.(dialed := net.dialed + 1);
      }
    }
  }

  /** `pluginHostState`; the ghost log is the history the lemmas speak of. */
  class PluginHostState {
    const network: Network
    var broker: Option<BrokerRef>
    var brokerID: uint32
    var client: Option<Client>
    ghost var log: seq<Event>

    ghost function State(): World
      reads this, network
    {
      World(Cache(broker, brokerID, client), network.net, log)
    }

    constructor (network: Network)
      requires network.net == START.net
      ensures this.network == network && State() == START
    {
      this.network := network;
      broker, brokerID, client := None, 0, None;
      log := [];
    }

    method SetBroker(b: Option<BrokerRef>)
      modifies this
      ensures State() == Next(old(State()), Step.SetBroker(b))
    {
      broker := b;
      brokerID := 0;
      client := None;
      log := log + [Rebound];
    }

    method SetBrokerID(id: uint32) returns (ghost lucky: bool)
      modifies this, network
      ensures State() == Next(old(State()), Step.SetBrokerID(id, lucky))
    {
      brokerID := id;
      client := None;
      log := log + [Rebound];
      lucky := DialLocked();
    }

    method DialLocked() returns (ghost lucky: bool)
      modifies this, network
      ensures State() == AfterDial(old(State()), lucky)
    {
      lucky := false;
      if client.Some? || broker.None? || brokerID == 0 {
        return;
      }
      var conn;
      conn, lucky := network.Dial(broker.value, brokerID);
      if conn.None? {
        log := log + [DialFailed];
        return;
      }
      client := conn;
      log := log + [Dialed(client.value)];
    }

    method Host(ghost thread: nat) returns (c: Option<Client>, ghost lucky: bool)
      modifies this, network
      ensures State() == Next(old(State()), Step.Host(thread, lucky)) && c == client
    {
      lucky := DialLocked();
      c := client;
      log := log + [Answered(thread, c)];
    }
  }
}
