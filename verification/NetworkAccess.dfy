/**
 * The network_access_provider.v1 example: connect and disconnect intents kept in memory and in
 * one key of the host's instance state. Every RPC holds the provider's mutex, so calls do not
 * overlap; any read, write or host-info call may fail, a failed write may or may not have taken
 * effect, and the process may be restarted after any of them.
 */
module NetworkAccess {
  import opened Options
  import opened Decimal

  const CONNECTED := "connected"
  const DISCONNECTED := "disconnected"
  const LISTENER_API := "api"
  const HOSTNAME := "stub.invalid"
  const ADDRESS := "100.64.0.1"

  datatype HostListener = HostListener(name: string, defaultPort: int)

  datatype HostInfo = HostInfo(listeners: seq<HostListener>)

  datatype Exposed = Exposed(name: string, origin: string)

  datatype Status = Status(
    state: string, desiredConnected: bool, hostname: string, addresses: seq<string>,
    listeners: seq<Exposed>, origin: string)

  /** The fields of `provider`, without its mutex and logger. */
  datatype Memory = Memory(connected: bool, desired: bool, restored: bool, hostInfo: Option<HostInfo>)

  const ZERO := Memory(false, false, false, None)

  // ----- Status

  function OriginFor(port: int): string {
    if port != 0 && port != 443 then "https://" + HOSTNAME + ":" + FormatInt(port) else "https://" + HOSTNAME
  }

  function Expose(l: HostListener): Exposed {
    Exposed(l.name, OriginFor(l.defaultPort))
  }

  function ExposeAll(ls: seq<HostListener>): (es: seq<Exposed>)
    ensures |es| == |ls| && forall i :: 0 <= i < |ls| ==> es[i] == Expose(ls[i])
  {
    seq(|ls|, i requires 0 <= i < |ls| => Expose(ls[i]))
  }

  /** The position of the last listener named "api", -1 if there is none. */
  function LastApi(ls: seq<HostListener>): (i: int)
    ensures -1 <= i < |ls|
    ensures i >= 0 ==> ls[i].name == LISTENER_API
    ensures forall j :: i < j < |ls| ==> ls[j].name != LISTENER_API
  {
    if ls == [] then -1
    else if ls[|ls| - 1].name == LISTENER_API then |ls| - 1
    else LastApi(ls[..|ls| - 1])
  }

  /** The origin the listeners give, empty when none of them is the API. */
  function ApiOrigin(ls: seq<HostListener>): string {
    if LastApi(ls) < 0 then "" else OriginFor(ls[LastApi(ls)].defaultPort)
  }

  function StatusOf(m: Memory): Status {
    if !m.connected then Status(DISCONNECTED, m.desired, "", [], [], "")
    else
      var ls := if m.hostInfo.Some? then m.hostInfo.value.listeners else [];
      Status(CONNECTED, m.desired, HOSTNAME, [ADDRESS], ExposeAll(ls),
             if LastApi(ls) < 0 then "https://" + HOSTNAME else ApiOrigin(ls))
  }

  /**
   * A connected status exposes every host listener, in order, and its origin is that of an "api"
   * listener whenever the host reported one; a disconnected status exposes nothing.
   */
  lemma StatusExposesListeners(m: Memory)
    ensures var s := StatusOf(m);
            && (s.state == (if m.connected then "connected" else "disconnected"))
            && s.desiredConnected == m.desired
            && (m.connected ==> s.hostname == "stub.invalid" && s.addresses == ["100.64.0.1"])
            && (!m.connected ==> s.hostname == "" && s.addresses == [])
            && (m.connected <==> s.origin != "")
            && (!m.connected ==> s.listeners == [])
            && (m.connected && m.hostInfo.Some? ==>
              var ls := m.hostInfo.value.listeners;
              && s.listeners == ExposeAll(ls)
              && ((exists l <- ls :: l.name == LISTENER_API) ==>
                exists l <- ls :: l.name == LISTENER_API && s.origin == OriginFor(l.defaultPort)))
  {
    if m.connected && m.hostInfo.Some? {
      var ls := m.hostInfo.value.listeners;
      if l :| l in ls && l.name == LISTENER_API {
        assert ls[LastApi(ls)] in ls;
      }
    }
  }

  lemma OneMoreListener(ls: seq<HostListener>, i: nat)
    requires i < |ls|
    ensures ExposeAll(ls[..i + 1]) == ExposeAll(ls[..i]) + [Exposed(ls[i].name, OriginFor(ls[i].defaultPort))]
    ensures ApiOrigin(ls[..i + 1]) ==
            if ls[i].name == LISTENER_API then OriginFor(ls[i].defaultPort) else ApiOrigin(ls[..i])
  {
    assert ls[..i + 1][..i] == ls[..i];
  }

  // ----- Calls, failures and restarts

  datatype Write = Acknowledged | FailedButStored | FailedAndLost

  /**
   * What one RPC runs into: whether the host is bound when it restores and when it persists,
   * whether its read works, what the two host-info calls give, and how its write ends.
   */
  datatype Luck = Luck(
    boundAtRestore: bool, bound: bool, read: bool,
    restoreInfo: Option<HostInfo>, info: Option<HostInfo>, write: Write)

  datatype Last = NoWrite | Succeeded(desired: bool) | Uncertain

  /** `candidates` are the value the last acknowledged write left and all values written since. */
  datatype World = World(memory: Memory, stored: Option<string>, last: Last, candidates: set<Option<string>>)

  datatype Step = Connect(luck: Luck) | Disconnect(luck: Luck) | GetStatus(luck: Luck) | Restart

  datatype Reply = Answer(status: Status) | Refused | Silence

  function ValueOf(desired: bool): string {
    if desired then "1" else "0"
  }

  function Restored(w: World, luck: Luck): World {
    var m := w.memory;
    if m.restored || !luck.boundAtRestore || !luck.read then w
    else if w.stored == Some("1") then
      w.(memory := Memory(true, true, true, if luck.restoreInfo.Some? then luck.restoreInfo else m.hostInfo))
    else w.(memory := m.(restored := true))
  }

  function Persisted(w: World, luck: Luck): (World, bool) {
    if !luck.bound then (w, true)
    else
      var value := Some(ValueOf(w.memory.desired));
      match luck.write
      case Acknowledged => (World(w.memory, value, Succeeded(w.memory.desired), {value}), true)
      case FailedButStored => (World(w.memory, value, Uncertain, w.candidates + {value}), false)
      case FailedAndLost => (w.(last := Uncertain, candidates := w.candidates + {value}), false)
  }

  function Answering(w: World, luck: Luck): (World, Reply) {
    var p := Persisted(w, luck);
    (p.0, if p.1 then Answer(StatusOf(w.memory)) else Refused)
  }

  function Next(w: World, s: Step): (World, Reply) {
    match s
    case Connect(luck) =>
      var r := Restored(w, luck);
      if luck.bound && luck.info.None? then (r, Refused)
      else
        var info := if luck.bound then luck.info else r.memory.hostInfo;
        Answering(r.(memory := r.memory.(connected := true, desired := true, hostInfo := info)), luck)
    case Disconnect(luck) =>
      var r := Restored(w, luck);
      Answering(r.(memory := r.memory.(connected := false, desired := false)), luck)
    case GetStatus(luck) =>
      var r := Restored(w, luck);
      (r, Answer(StatusOf(r.memory)))
    case Restart => (w.(memory := ZERO), Silence)
  }

  function Run(w: World, steps: seq<Step>): World
    decreases |steps|
  {
    if steps == [] then w else Run(Next(w, steps[0]).0, steps[1..])
  }

  function Start(stored: Option<string>): World {
    World(ZERO, stored, NoWrite, {stored})
  }

  // ----- Flags

  lemma {:induction false} FlagsAgree(w: World, steps: seq<Step>)
    requires w.memory.connected == w.memory.desired
    ensures Run(w, steps).memory.connected == Run(w, steps).memory.desired
    decreases |steps|
  {
    if steps != [] {
      FlagsAgree(Next(w, steps[0]).0, steps[1..]);
    }
  }

  /** In every reachable state, after failed calls too, a status says connected exactly when that is desired. */
  lemma StatusMatchesIntent(stored: Option<string>, steps: seq<Step>, s: Step)
    ensures var w := Run(Start(stored), steps);
            && w.memory.connected == w.memory.desired
            && (Next(w, s).1.Answer? ==>
              var status := Next(w, s).1.status;
              status.state == CONNECTED <==> status.desiredConnected)
  {
    FlagsAgree(Start(stored), steps);
  }

  /**
   * Connect answers exactly when every host call it needs works, and then exposes the listeners the
   * host has just reported. When only the host info is missing, no intent is written or adopted.
   */
  lemma ConnectAnswer(w: World, luck: Luck)
    ensures var (c, reply) := Next(w, Connect(luck));
            && (reply.Answer? <==> (luck.bound ==> luck.info.Some? && luck.write.Acknowledged?))
            && (reply.Answer? ==>
              && reply.status.state == CONNECTED && reply.status.desiredConnected
              && (luck.bound ==> reply.status.listeners == ExposeAll(luck.info.value.listeners)))
            && (luck.bound && luck.info.None? ==>
              c.stored == w.stored && c.last == w.last && c.memory == Restored(w, luck).memory)
  {}

  /**
   * Disconnect answers exactly when its write, if the host is bound, succeeds, and then says
   * disconnected; a status is always answered.
   */
  lemma DisconnectAnswer(w: World, luck: Luck)
    ensures var (d, reply) := Next(w, Disconnect(luck));
            && (reply.Answer? <==> (luck.bound ==> luck.write.Acknowledged?))
            && (reply.Answer? ==> reply.status.state == DISCONNECTED && !reply.status.desiredConnected)
            && !d.memory.connected && !d.memory.desired
    ensures Next(w, GetStatus(luck)).1.Answer?
  {}

  // ----- Whose listeners a status shows

  /** A call of this process whose restore finds a stored intent to connect. */
  predicate Resumes(w: World, luck: Luck) {
    !w.memory.restored && luck.boundAtRestore && luck.read && w.stored == Some("1")
  }

  /** The host info that a step fetches with success: a connect's own, or the one of its restore. */
  function FetchedBy(w: World, s: Step): Option<HostInfo> {
    match s
    case Restart => None
    case Connect(luck) =>
      if luck.bound && luck.info.Some? then luck.info
      else if Resumes(w, luck) then luck.restoreInfo else None
    case Disconnect(luck) => if Resumes(w, luck) then luck.restoreInfo else None
    case GetStatus(luck) => if Resumes(w, luck) then luck.restoreInfo else None
  }

  /** The last host info fetched by a call of the present process, told from what its calls ran into. */
  function LastFetched(stored: Option<string>, steps: seq<Step>): Option<HostInfo> {
    if steps == [] then None
    else
      var k := |steps| - 1;
      var fetched := FetchedBy(Run(Start(stored), steps[..k]), steps[k]);
      if steps[k].Restart? then None
      else if fetched.Some? then fetched else LastFetched(stored, steps[..k])
  }

  lemma {:induction false} RunOneMore(w: World, steps: seq<Step>)
    requires steps != []
    ensures Run(w, steps) == Next(Run(w, steps[..|steps| - 1]), steps[|steps| - 1]).0
    decreases |steps|
  {
    if |steps| > 1 {
      var rest := steps[1..];
      RunOneMore(Next(w, steps[0]).0, rest);
      assert rest[..|rest| - 1] == steps[..|steps| - 1][1..];
    }
  }

  lemma StepKeepsInfo(w: World, s: Step)
    ensures Next(w, s).0.memory.hostInfo ==
            if s.Restart? then None
            else if FetchedBy(w, s).Some? then FetchedBy(w, s) else w.memory.hostInfo
  {}

  lemma {:induction false} InfoIsLastFetched(stored: Option<string>, steps: seq<Step>)
    ensures Run(Start(stored), steps).memory.hostInfo == LastFetched(stored, steps)
    decreases |steps|
  {
    if steps != [] {
      var k := |steps| - 1;
      InfoIsLastFetched(stored, steps[..k]);
      RunOneMore(Start(stored), steps);
      StepKeepsInfo(Run(Start(stored), steps[..k]), steps[k]);
    }
  }

  /** How a port shows in an origin. */
  predicate OriginOf(port: int, origin: string) {
    if port == 0 || port == 443 then origin == "https://stub.invalid"
    else origin == "https://stub.invalid:" + FormatInt(port)
  }

  /**
   * A connected status made with this host info: the same names in the same order, each with its
   * port's origin; the origin of the whole is that of the last API listener. Without info, nothing.
   */
  predicate Shows(status: Status, info: Option<HostInfo>) {
    var exposed := status.listeners;
    match info
    case None => exposed == [] && status.origin == "https://stub.invalid"
    case Some(info) =>
      && |exposed| == |info.listeners|
      && (forall i :: 0 <= i < |exposed| ==>
           && exposed[i].name == info.listeners[i].name
           && OriginOf(info.listeners[i].defaultPort, exposed[i].origin))
      && ((forall l <- info.listeners :: l.name != "api") ==> status.origin == "https://stub.invalid")
      && (forall i :: 0 <= i < |exposed| && LastNamedApi(exposed, i) ==> status.origin == exposed[i].origin)
  }

  predicate LastNamedApi(exposed: seq<Exposed>, i: nat)
    requires i < |exposed|
  {
    exposed[i].name == "api" && forall j :: i < j < |exposed| ==> exposed[j].name != "api"
  }

  /**
   * In any run, a status that says connected exposes the listeners of the last host info that a call
   * of this process fetched, by a connect or by restoring an intent to connect, and none without it.
   */
  lemma ListenersAreLastFetched(stored: Option<string>, steps: seq<Step>, s: Step)
    ensures var reply := Next(Run(Start(stored), steps), s).1;
            reply.Answer? && reply.status.state == "connected" ==> Shows(reply.status, LastFetched(stored, steps + [s]))
  {
    hide Next, Run, LastFetched, FormatInt;
    var all := steps + [s];
    assert all[..|all| - 1] == steps;
    InfoIsLastFetched(stored, all);
    RunOneMore(Start(stored), all);
    AnswersItsMemory(Run(Start(stored), steps), s);
    if Next(Run(Start(stored), steps), s).1.Answer? {
      StatusShows(Run(Start(stored), all).memory);
    }
  }

  /** A status tells of the memory that its call leaves behind. */
  lemma AnswersItsMemory(w: World, s: Step)
    ensures Next(w, s).1.Answer? ==> Next(w, s).1.status == StatusOf(Next(w, s).0.memory)
  {}

  lemma StatusShows(m: Memory)
    ensures m.connected ==> Shows(StatusOf(m), m.hostInfo)
  {
    hide LastApi, FormatInt, OriginFor;
    if m.connected && m.hostInfo.Some? {
      var ls, exposed := m.hostInfo.value.listeners, StatusOf(m).listeners;
      forall i | 0 <= i < |ls| ensures OriginOf(ls[i].defaultPort, exposed[i].origin) {
        OriginForPort(ls[i].defaultPort);
      }
      ApiIsThere(ls);
      forall i | 0 <= i < |exposed| && LastNamedApi(exposed, i)
        ensures StatusOf(m).origin == exposed[i].origin
      {
        LastApiIs(ls, i);
      }
    }
  }

  lemma ApiIsThere(ls: seq<HostListener>)
    ensures LastApi(ls) >= 0 ==> exists l <- ls :: l.name == "api"
  {
    if LastApi(ls) >= 0 {
      assert ls[LastApi(ls)] in ls;
    }
  }

  lemma LastApiIs(ls: seq<HostListener>, i: nat)
    requires i < |ls| && ls[i].name == "api" && forall j :: i < j < |ls| ==> Expose(ls[j]).name != "api"
    ensures LastApi(ls) == i
  {
    var last := LastApi(ls);
    assert last >= i && Expose(ls[last]).name == "api";
  }

  lemma OriginForPort(port: int)
    ensures OriginOf(port, OriginFor(port))
  {
    assert "https://" + HOSTNAME == "https://stub.invalid";
    assert "https://" + HOSTNAME + ":" == "https://stub.invalid:";
  }

  // ----- When a process restores

  /** The step's call reaches the host and its read works. */
  predicate ReadsStore(s: Step) {
    match s
    case Restart => false
    case Connect(luck) => luck.boundAtRestore && luck.read
    case Disconnect(luck) => luck.boundAtRestore && luck.read
    case GetStatus(luck) => luck.boundAtRestore && luck.read
  }

  /** Some call since the last restart could read the store. */
  ghost predicate HasRead(steps: seq<Step>) {
    exists i :: 0 <= i < |steps| && ReadsStore(steps[i]) && forall j :: i < j < |steps| ==> steps[j] != Restart
  }

  lemma HasReadStep(steps: seq<Step>, s: Step)
    ensures HasRead(steps + [s]) <==> s != Restart && (HasRead(steps) || ReadsStore(s))
  {
    var all, n := steps + [s], |steps|;
    assert all[n] == s && forall i :: 0 <= i < n ==> all[i] == steps[i];
    if i :| 0 <= i < n && ReadsStore(steps[i]) && forall j :: i < j < n ==> steps[j] != Restart {
      assert ReadsStore(all[i]);
    }
    if ReadsStore(s) {
      assert ReadsStore(all[n]) && s != Restart;
    }
  }

  /** A process has restored exactly once some call since its start could read the store, and stays so. */
  lemma {:induction false} RestoredExactly(stored: Option<string>, steps: seq<Step>)
    ensures Run(Start(stored), steps).memory.restored <==> HasRead(steps)
    decreases |steps|
  {
    if steps != [] {
      hide Next, HasRead, ReadsStore;
      var k := |steps| - 1;
      assert steps == steps[..k] + [steps[k]];
      RunOneMore(Start(stored), steps);
      RestoredExactly(stored, steps[..k]);
      RestoresByStep(Run(Start(stored), steps[..k]), steps[k]);
      HasReadStep(steps[..k], steps[k]);
    } else {
      assert !HasRead(steps);
    }
  }

  lemma RestoresByStep(w: World, s: Step)
    ensures Next(w, s).0.memory.restored <==> s != Restart && (w.memory.restored || ReadsStore(s))
    ensures ReadsStore(s) ==> s != Restart
  {}

  // ----- Durable intent

  /** The intent the store is known to hold: what the last write said, if that write succeeded. */
  function Intent(w: World): Option<bool> {
    match w.last
    case NoWrite => Some(w.stored == Some("1"))
    case Succeeded(v) => Some(v)
    case Uncertain => None
  }

  ghost predicate Inv(w: World) {
    && w.memory.connected == w.memory.desired
    && w.stored in w.candidates
    && (w.last.Succeeded? ==> w.stored == Some(ValueOf(w.last.desired)))
    && match Intent(w)
       case None => true
       case Some(v) =>
         if w.memory.restored then w.memory.desired == v else w.memory.desired ==> v
  }

  /** The host is bound whenever an intent is to be written. */
  predicate BoundToWrite(s: Step) {
    (s.Connect? || s.Disconnect?) ==> s.luck.bound
  }

  lemma StepKeepsInv(w: World, s: Step)
    requires Inv(w) && BoundToWrite(s)
    ensures Inv(Next(w, s).0)
  {}

  lemma {:induction false} RunKeepsInv(w: World, steps: seq<Step>)
    requires Inv(w) && forall s <- steps :: BoundToWrite(s)
    ensures Inv(Run(w, steps))
    decreases |steps|
  {
    if steps != [] {
      assert steps[0] in steps;
      StepKeepsInv(w, steps[0]);
      RunKeepsInv(Next(w, steps[0]).0, steps[1..]);
    }
  }

  /**
   * Durable intent. Over any run with failures and restarts anywhere: while the last write tried
   * has succeeded, every status of a process that has restored shows that write's intent.
   */
  lemma DurableIntent(stored: Option<string>, steps: seq<Step>, s: Step)
    requires (forall t <- steps :: BoundToWrite(t)) && BoundToWrite(s)
    ensures var (w, reply) := Next(Run(Start(stored), steps), s);
            reply.Answer? && w.memory.restored && Intent(w).Some? ==>
              && reply.status.desiredConnected == Intent(w).value
              && (reply.status.state == CONNECTED <==> Intent(w).value)
  {
    RunKeepsInv(Start(stored), steps);
    StepKeepsInv(Run(Start(stored), steps), s);
  }

  /**
   * What a restarted process restores, whatever failed before: the intent last acknowledged, or
   * one that was tried since without an acknowledgement.
   */
  lemma RestartRestoresACandidate(stored: Option<string>, steps: seq<Step>, luck: Luck)
    requires forall t <- steps :: BoundToWrite(t)
    requires luck.boundAtRestore && luck.read
    ensures var w := Run(Start(stored), steps);
            var reply := Next(Next(w, Restart).0, GetStatus(luck)).1;
            reply.Answer? && exists c <- w.candidates :: reply.status.desiredConnected <==> c == Some("1")
  {
    RunKeepsInv(Start(stored), steps);
    var w := Run(Start(stored), steps);
    assert w.stored in w.candidates;
  }

  /** A `GetStatus` that could not read the stored intent. */
  predicate Unread(s: Step) {
    s.GetStatus? && !(s.luck.boundAtRestore && s.luck.read)
  }

  /** Failed reads leave no trace, so the first read that works still restores the stored intent. */
  lemma {:induction false} FailedReadsKeepIntent(w: World, steps: seq<Step>, luck: Luck)
    requires !w.memory.restored && (forall s <- steps :: Unread(s))
    requires luck.boundAtRestore && luck.read
    ensures Run(w, steps) == w
    ensures var (after, reply) := Next(Run(w, steps), GetStatus(luck));
            && after.memory.restored
            && reply.Answer?
            && (reply.status.desiredConnected <==> w.memory.desired || w.stored == Some("1"))
    decreases |steps|
  {
    if steps != [] {
      assert steps[0] in steps;
      assert Next(w, steps[0]).0 == w;
      FailedReadsKeepIntent(w, steps[1..], luck);
    }
  }

  // ----- Without a bound host

  /** What a fresh process shows once it has read the store. */
  function AfterRestart(w: World, luck: Luck): Reply {
    Next(Next(w, Restart).0, GetStatus(luck)).1
  }

  /**
   * An answered Connect or Disconnect survives a restart exactly when the host was bound at the
   * time it was to be written, or the store happened to hold that intent already.
   */
  lemma AnsweredIntentSurvives(w: World, luck: Luck, later: Luck)
    requires later.boundAtRestore && later.read
    ensures var (c, reply) := Next(w, Connect(luck));
            reply.Answer? ==>
              (AfterRestart(c, later).status.desiredConnected <==> luck.bound || w.stored == Some("1"))
    ensures var (d, reply) := Next(w, Disconnect(luck));
            reply.Answer? ==>
              (!AfterRestart(d, later).status.desiredConnected <==> luck.bound || w.stored != Some("1"))
  {}

  /**
   * Even without a restart: an answered Disconnect still holds at the next status exactly when the
   * host was bound, the process had restored or the disconnect did, or the store did not say "1".
   */
  lemma AnsweredDisconnectHolds(w: World, luck: Luck, later: Luck)
    requires later.boundAtRestore && later.read
    ensures var (d, reply) := Next(w, Disconnect(luck));
            reply.Answer? ==>
              (!Next(d, GetStatus(later)).1.status.desiredConnected
               <==> luck.bound || w.memory.restored || (luck.boundAtRestore && luck.read) || w.stored != Some("1"))
  {}

  // ----- The source's own form

  /** The host as the plugin reaches it; the ghost fields keep the history of writes. */
  class InstanceHost {
    var stored: Option<string>
    ghost var last: Last
    ghost var candidates: set<Option<string>>

    constructor (stored: Option<string>)
      ensures this.stored == stored && last == NoWrite && candidates == {stored}
    {
      this.stored := stored;
      last, candidates := NoWrite, {stored};
    }

    method GetHostInfo() returns (info: Option<HostInfo>)
    {
      info := *;
    }

    method ReadInstanceState() returns (ok: bool, value: Option<string>)
      ensures ok ==> value == stored
    {
      ok, value := *, stored;
    }

    method WriteInstanceState(value: string, ghost desired: bool) returns (ok: bool, ghost end: Write)
      modifies this
      ensures ok == end.Acknowledged?
      ensures stored == if end.FailedAndLost? then old(stored) else Some(value)
      ensures last == if ok then Succeeded(desired) else Uncertain
      ensures candidates == if ok then {Some(value)} else old(candidates) + {Some(value)}
    {
      ok := *;
      var reached := *;
      end := if ok then Acknowledged else if reached then FailedButStored else FailedAndLost;
      if ok || reached {
        stored := Some(value);
      }
      last := if ok then Succeeded(desired) else Uncertain;
      candidates := if ok then {Some(value)} else candidates + {Some(value)};
    }
  }

  class Provider {
    const host: InstanceHost
    var connected: bool
    var desired: bool
    var restored: bool
    var hostInfo: Option<HostInfo>

    ghost function State(): World
      reads this, host
    {
      World(Memory(connected, desired, restored, hostInfo), host.stored, host.last, host.candidates)
    }

    /** A fresh process of the plugin. */
    constructor (host: InstanceHost)
      ensures this.host == host
      ensures State() == World(ZERO, host.stored, host.last, host.candidates)
    {
      this.host := host;
      connected, desired, restored, hostInfo := false, false, false, None;
    }

    /** `sdkruntime.Host()`: nil until the host has bound its broker. */
    method Host() returns (h: InstanceHost?)
      ensures h != null ==> h == host
    {
      h := null;
      if * {
        h := host;
      }
    }

    method Connect() returns (reply: Reply, ghost luck: Luck)
      modifies this, host
      ensures (State(), reply) == Next(old(State()), Step.Connect(luck))
    {
      luck := RestoreLocked();
      var h := Host();
      luck := luck.(bound := h != null);
      if h != null {
        var info := h.GetHostInfo();
        luck := luck.(info := info);
        if info.None? {
          return Refused, luck;
        }
        hostInfo := info;
      }
      connected := true;
      desired := true;
      reply, luck := Finish(h, luck);
    }

    method Disconnect() returns (reply: Reply, ghost luck: Luck)
      modifies this, host
      ensures (State(), reply) == Next(old(State()), Step.Disconnect(luck))
    {
      luck := RestoreLocked();
      var h := Host();
      luck := luck.(bound := h != null);
      connected := false;
      desired := false;
      reply, luck := Finish(h, luck);
    }

    method GetStatus() returns (reply: Reply, ghost luck: Luck)
      modifies this
      ensures (State(), reply) == Next(old(State()), Step.GetStatus(luck))
    {
      luck := RestoreLocked();
      var status := StatusLocked();
      reply := Answer(status);
    }

    method RestoreLocked() returns (ghost luck: Luck)
      modifies this
      ensures State() == Restored(old(State()), luck)
    {
      luck := Luck(false, false, false, None, None, Acknowledged);
      if restored {
        return;
      }
      var h := Host();
      if h == null {
        return;
      }
      var ok, value := h.ReadInstanceState();
      luck := luck.(boundAtRestore := true, read := ok);
      if !ok {
        return;
      }
      restored := true;
      if value == Some("1") {
        desired := true;
        connected := true;
        var info := h.GetHostInfo();
        luck := luck.(restoreInfo := info);
        if info.Some? {
          hostInfo := info;
        }
      }
    }

    method PersistLocked(h: InstanceHost?, ghost luck: Luck) returns (ok: bool, ghost used: Luck)
      requires h != null ==> h == host
      requires luck.bound == (h != null)
      modifies host
      ensures used == luck.(write := used.write)
      ensures (State(), ok) == Persisted(old(State()), used)
    {
      used := luck;
      if h == null {
        return true, used;
      }
      var value := if desired then "1" else "0";
      ghost var end;
      ok, end := h.WriteInstanceState(value, desired);
      used := luck.(write := end);
    }

    /** Persist, then answer; the push of the status to the host has no effect here. */
    method Finish(h: InstanceHost?, ghost luck: Luck) returns (reply: Reply, ghost used: Luck)
      requires h != null ==> h == host
      requires luck.bound == (h != null)
      modifies host
      ensures used == luck.(write := used.write)
      ensures (State(), reply) == Answering(old(State()), used)
    {
      var ok;
      ok, used := PersistLocked(h, luck);
      if !ok {
        return Refused, used;
      }
      var status := StatusLocked();
      reply := Answer(status);
    }

    method StatusLocked() returns (status: Status)
      ensures status == StatusOf(Memory(connected, desired, restored, hostInfo))
    {
      status := Status(DISCONNECTED, desired, "", [], [], "");
      if !connected {
        return;
      }
      status := status.(state := CONNECTED, hostname := HOSTNAME, addresses := [ADDRESS]);
      if hostInfo.Some? {
        var ls := hostInfo.value.listeners;
        for i := 0 to |ls|
          invariant status == Status(CONNECTED, desired, HOSTNAME, [ADDRESS], ExposeAll(ls[..i]), ApiOrigin(ls[..i]))
        {
          var l := ls[i];
          var origin := "https://" + status.hostname;
          if l.defaultPort != 0 && l.defaultPort != 443 {
            origin := "https://" + status.hostname + ":" + FormatInt(l.defaultPort);
          }
          OneMoreListener(ls, i);
          status := status.(listeners := status.listeners + [Exposed(l.name, origin)]);
          if l.name == LISTENER_API {
            status := status.(origin := origin);
          }
        }
        assert ls[..|ls|] == ls;
      }
      if status.origin == "" {
        status := status.(origin := "https://" + status.hostname);
      }
    }
  }
}
