/** N clients compete for one Redis key. Requests wait in the network for any time, may be
    applied more than once (the Redis client retries) or never, and their acknowledgements may
    be lost. A client counts itself leader from an acknowledgement until the time it sent that
    request plus its horizon (the renew deadline). */
module LeaseProtocol {
  import opened Options
  import opened RedisLock

  type Id = string

  datatype Kind = CreateCall | UpdateCall

  /** A request in the network. The session is the client's run of the elector it belongs to. */
  datatype Message = Message(from: Id, kind: Kind, record: Record, epoch: string, sentAt: int, session: nat)

  datatype Ack = Ack(to: Id, sentAt: int, session: nat)

  datatype Client = Client(session: nat, leadUntil: int)

  /** One successful write to the key. */
  datatype Write = Write(writer: Id, record: Record, epoch: string, at: int)

  /** Lease duration in seconds and horizon in milliseconds, per client; and the two rules clients
      may follow about releases: to stop leading before sending one, and not to campaign again
      while one of their own may still be delivered. */
  datatype Config = Config(lease: map<Id, int>, horizon: map<Id, int>, stopsFirst: bool, drains: bool)

  datatype State = State(
    now: int,
    cell: Cell,
    clients: map<Id, Client>,
    net: set<Message>,
    acks: set<Ack>,
    log: seq<Write>)

  /** Identities are unique (map keys) and not empty, leases last at least a second. */
  ghost predicate WellFormed(cfg: Config) {
    && cfg.lease.Keys == cfg.horizon.Keys
    && "" !in cfg.lease
    && forall c <- cfg.lease :: cfg.lease[c] >= 1 && cfg.horizon[c] >= 1
  }

  /** No client trusts an acknowledgement for longer than the lease it wrote, and both release
      rules are followed. */
  ghost predicate Disciplined(cfg: Config)
    requires WellFormed(cfg)
  {
    && cfg.stopsFirst && cfg.drains
    && forall c <- cfg.lease :: cfg.horizon[c] <= 1000 * cfg.lease[c]
  }

  datatype Event =
    | Tick(d: nat)
    | SendAcquire(c: Id, kind: Kind, record: Record, epoch: string)
    | SendRelease(c: Id, record: Record, epoch: string)
    | Apply(m: Message)
    | Drop(m: Message)
    | Receive(a: Ack)
    | LoseAck(a: Ack)
    | Restart(c: Id)

  predicate IsRelease(m: Message) {
    m.record.holderIdentity == ""
  }

  function Max(a: int, b: int): int {
    if a < b then b else a
  }

  function Init(cfg: Config): State {
    State(0, Absent, map c <- cfg.lease :: Client(0, 0), {}, {}, [])
  }

  /** The atomic effect of a request when Redis executes it. */
  function Execute(cell: Cell, now: int, m: Message): (Cell, Outcome) {
    match m.kind
    case CreateCall => ApplyCreate(cell, now, m.record, m.epoch)
    case UpdateCall => ApplyUpdate(cell, now, m.from, m.record, m.epoch)
  }

  function Leave(s: State, c: Id): map<Id, Client>
    requires c in s.clients
  {
    s.clients[c := Client(s.clients[c].session + 1, s.now)]
  }

  /** An event that is not enabled leaves the state as it is. */
  function Step(cfg: Config, s: State, e: Event): State
  {
    match e
    case Tick(d) => s.(now := s.now + d)
    case SendAcquire(c, kind, record, epoch) =>
      // a client campaigns with its own id and lease
      if c in s.clients && c in cfg.lease
         && record.holderIdentity == c && record.leaseDurationSeconds == cfg.lease[c]
         && (cfg.drains ==> forall m <- s.net :: m.from == c ==> !IsRelease(m))
      then s.(net := s.net + {Message(c, kind, record, epoch, s.now, s.clients[c].session)})
      else s
    case SendRelease(c, record, epoch) =>
      if c in s.clients && record.holderIdentity == "" && record.leaseDurationSeconds >= 1
      then s.(clients := if cfg.stopsFirst then Leave(s, c) else s.clients,
              net := s.net + {Message(c, UpdateCall, record, epoch, s.now, s.clients[c].session)})
      else s
    case Apply(m) =>
      if m !in s.net then s else
      var (cell, o) := Execute(s.cell, s.now, m);
      if o != Done then s.(cell := cell)
      else s.(cell := cell,
              log := s.log + [Write(m.from, m.record, m.epoch, s.now)],
              acks := if IsRelease(m) then s.acks else s.acks + {Ack(m.from, m.sentAt, m.session)})
    case Drop(m) => s.(net := s.net - {m})
    case Receive(a) =>
      if a in s.acks && a.to in s.clients && a.to in cfg.horizon && s.clients[a.to].session == a.session
      then s.(acks := s.acks - {a},
              clients := s.clients[a.to := s.clients[a.to].(
                leadUntil := Max(s.clients[a.to].leadUntil, a.sentAt + cfg.horizon[a.to]))])
      else s.(acks := s.acks - {a})
    case LoseAck(a) => s.(acks := s.acks - {a})
    case Restart(c) => if c in s.clients then s.(clients := Leave(s, c)) else s
  }

  function Run(cfg: Config, s: State, es: seq<Event>): State {
    if es == [] then s else Step(cfg, Run(cfg, s, es[..|es| - 1]), es[|es| - 1])
  }

  predicate Leading(s: State, c: Id) {
    c in s.clients && s.now < s.clients[c].leadUntil
  }

  ghost predicate AtMostOneLeader(s: State) {
    forall c, d :: Leading(s, c) && Leading(s, d) ==> c == d
  }

  // ---------------------------------------------------------------------------
  // The invariant
  // ---------------------------------------------------------------------------

  function Ttl(w: Write): int {
    1000 * w.record.leaseDurationSeconds
  }

  /** The key still names c, and will for every instant before `until`. */
  ghost predicate Covers(s: State, c: Id, until: int) {
    && s.cell.Present?
    && s.cell.value.record.holderIdentity == c
    && s.cell.expiry.At?
    && until <= s.cell.expiry.ms
  }

  ghost predicate GoodWrite(cfg: Config, w: Write)
    requires WellFormed(cfg)
  {
    && w.writer in cfg.lease
    && w.record.leaseDurationSeconds >= 1
    && (w.record.holderIdentity == "" ||
        (w.record.holderIdentity == w.writer && w.record.leaseDurationSeconds == cfg.lease[w.writer]))
  }

  /** The key is the last write of the log, and no write of the log takes over a record of
      another holder before that record has run out. */
  ghost predicate LogInv(cfg: Config, s: State)
    requires WellFormed(cfg)
  {
    && (forall i :: 0 <= i < |s.log| ==> GoodWrite(cfg, s.log[i]) && s.log[i].at <= s.now)
    && (forall i, j :: 0 <= i < j < |s.log| ==> s.log[i].at <= s.log[j].at)
    && (forall i, j {:trigger s.log[i], s.log[j]} :: 0 <= i && j == i + 1 && j < |s.log| ==> MayFollow(s.log[i], s.log[j]))
    && (s.log == [] ==> s.cell == Absent)
    && (s.log != [] ==>
          var w := s.log[|s.log| - 1];
          s.cell == Present(Stored(w.record, w.epoch), At(w.at + Ttl(w))))
  }

  predicate MayFollow(w: Write, v: Write) {
    w.record.holderIdentity == "" || v.writer == w.record.holderIdentity || w.at + Ttl(w) <= v.at
  }

  /** What every request asks for, whatever rules the clients follow. */
  ghost predicate SentInv(cfg: Config, s: State)
    requires WellFormed(cfg)
  {
    && s.clients.Keys == cfg.lease.Keys
    && (forall m <- s.net :: GoodWrite(cfg, Write(m.from, m.record, m.epoch, s.now)))
  }

  ghost predicate NetInv(cfg: Config, s: State)
    requires WellFormed(cfg)
  {
    && SentInv(cfg, s)
    && (forall m <- s.net ::
          && m.from in s.clients && m.sentAt <= s.now
          && (if IsRelease(m) then m.kind == UpdateCall && m.session < s.clients[m.from].session
              else m.session <= s.clients[m.from].session))
    && (forall a <- s.acks ::
          a.to in s.clients && a.sentAt <= s.now && a.session <= s.clients[a.to].session)
  }

  /** While a release of c is under way nothing of c's current session is under way. */
  ghost predicate ReleaseInv(s: State) {
    forall r <- s.net :: IsRelease(r) && r.from in s.clients ==>
      && s.clients[r.from].leadUntil <= s.now
      && (forall m <- s.net :: m.from == r.from ==> m.session < s.clients[r.from].session)
      && (forall a <- s.acks :: a.to == r.from ==> a.session < s.clients[r.from].session)
  }

  /** Leaders, and acknowledgements that can still make one, are covered by the key. */
  ghost predicate LeadInv(cfg: Config, s: State)
    requires WellFormed(cfg) && NetInv(cfg, s)
  {
    && (forall c <- s.clients ::
          && s.clients[c].leadUntil <= s.now + cfg.horizon[c]
          && (Leading(s, c) ==> Covers(s, c, s.clients[c].leadUntil)))
    && (forall a <- s.acks :: Fresh(cfg, s, a) ==> Covers(s, a.to, a.sentAt + cfg.horizon[a.to]))
  }

  ghost predicate Fresh(cfg: Config, s: State, a: Ack)
  {
    && a.to in s.clients && a.to in cfg.horizon
    && a.session == s.clients[a.to].session
    && s.now < a.sentAt + cfg.horizon[a.to]
  }

  ghost predicate Inv(cfg: Config, s: State)
    requires WellFormed(cfg)
  {
    LogInv(cfg, s) && NetInv(cfg, s) && ReleaseInv(s) && LeadInv(cfg, s)
  }

  lemma InitInv(cfg: Config)
    requires WellFormed(cfg)
    ensures Inv(cfg, Init(cfg))
  {
  }

  /** While somebody else is covered past this instant, a request is refused. */
  lemma OthersRefused(cfg: Config, s: State, m: Message, c: Id, until: int)
    requires WellFormed(cfg) && Inv(cfg, s) && m in s.net
    requires Covers(s, c, until) && s.now < until && c != m.from && c != ""
    ensures Execute(s.cell, s.now, m).1 != Done
  {
  }

  lemma ApplyKeepsLog(cfg: Config, s: State, m: Message)
    requires WellFormed(cfg) && LogInv(cfg, s) && SentInv(cfg, s) && m in s.net
    ensures LogInv(cfg, Step(cfg, s, Apply(m)))
  {
    var s' := Step(cfg, s, Apply(m));
    if Execute(s.cell, s.now, m).1 == Done {
      var w := Write(m.from, m.record, m.epoch, s.now);
      assert s'.log == s.log + [w];
      if s.log != [] {
        assert MayFollow(s.log[|s.log| - 1], w);
      }
    }
  }

  lemma ApplyKeepsLead(cfg: Config, s: State, m: Message)
    requires WellFormed(cfg) && Disciplined(cfg) && Inv(cfg, s) && m in s.net
    ensures NetInv(cfg, Step(cfg, s, Apply(m)))
    ensures LeadInv(cfg, Step(cfg, s, Apply(m))) && ReleaseInv(Step(cfg, s, Apply(m)))
  {
    var s' := Step(cfg, s, Apply(m));
    if Execute(s.cell, s.now, m).1 == Done {
      forall c <- s'.clients ensures Leading(s', c) ==> Covers(s', c, s'.clients[c].leadUntil) {
        if Leading(s, c) && c != m.from {
          OthersRefused(cfg, s, m, c, s.clients[c].leadUntil);
        }
      }
      forall a <- s'.acks | Fresh(cfg, s', a)
        ensures Covers(s', a.to, a.sentAt + cfg.horizon[a.to])
      {
        if a in s.acks && a.to != m.from {
          assert Fresh(cfg, s, a);
          OthersRefused(cfg, s, m, a.to, a.sentAt + cfg.horizon[a.to]);
        }
      }
    }
  }

  /** Requests under way have no say in who leads. */
  lemma SendKeepsLead(cfg: Config, s: State, net: set<Message>)
    requires WellFormed(cfg) && NetInv(cfg, s) && LeadInv(cfg, s) && NetInv(cfg, s.(net := net))
    ensures LeadInv(cfg, s.(net := net))
  {
    var s' := s.(net := net);
    assert forall a <- s'.acks :: Fresh(cfg, s', a) ==> Fresh(cfg, s, a);
    assert forall c <- s'.clients :: Leading(s', c) ==> Leading(s, c);
  }

  lemma SendAcquireInv(cfg: Config, s: State, c: Id, kind: Kind, record: Record, epoch: string)
    requires WellFormed(cfg) && cfg.drains && Inv(cfg, s)
    ensures Inv(cfg, Step(cfg, s, SendAcquire(c, kind, record, epoch)))
  {
    var s' := Step(cfg, s, SendAcquire(c, kind, record, epoch));
    SendAcquireKeepsNet(cfg, s, c, kind, record, epoch);
    SendKeepsLead(cfg, s, s'.net);
  }

  lemma SendAcquireKeepsNet(cfg: Config, s: State, c: Id, kind: Kind, record: Record, epoch: string)
    requires WellFormed(cfg) && cfg.drains && NetInv(cfg, s) && ReleaseInv(s)
    ensures var s' := Step(cfg, s, SendAcquire(c, kind, record, epoch)); NetInv(cfg, s') && ReleaseInv(s')
  {
  }

  /** Leaving (by release or restart) makes every earlier acknowledgement of c stale. */
  lemma LeaveInv(cfg: Config, s: State, c: Id)
    requires WellFormed(cfg) && Inv(cfg, s) && c in s.clients
    ensures Inv(cfg, s.(clients := Leave(s, c)))
  {
    var s' := s.(clients := Leave(s, c));
    forall a <- s'.acks | Fresh(cfg, s', a)
      ensures Covers(s', a.to, a.sentAt + cfg.horizon[a.to])
    {
      assert a.to != c;
      assert Fresh(cfg, s, a);
    }
  }

  /** A release may join the network once its sender has left. */
  lemma AddReleaseInv(cfg: Config, s: State, r: Message)
    requires WellFormed(cfg) && Inv(cfg, s) && r.from in s.clients
    requires IsRelease(r) && r.kind == UpdateCall && r.record.leaseDurationSeconds >= 1
    requires r.sentAt == s.now && r.session < s.clients[r.from].session
    requires s.clients[r.from].leadUntil <= s.now
    requires forall m <- s.net :: m.from == r.from ==> m.session < s.clients[r.from].session
    requires forall a <- s.acks :: a.to == r.from ==> a.session < s.clients[r.from].session
    ensures Inv(cfg, s.(net := s.net + {r}))
  {
    var s' := s.(net := s.net + {r});
    assert NetInv(cfg, s');
    SendKeepsLead(cfg, s, s'.net);
  }

  lemma SendReleaseInv(cfg: Config, s: State, c: Id, record: Record, epoch: string)
    requires WellFormed(cfg) && cfg.stopsFirst && Inv(cfg, s)
    ensures Inv(cfg, Step(cfg, s, SendRelease(c, record, epoch)))
  {
    if c in s.clients && record.holderIdentity == "" && record.leaseDurationSeconds >= 1 {
      LeaveInv(cfg, s, c);
      AddReleaseInv(cfg, s.(clients := Leave(s, c)),
                    Message(c, UpdateCall, record, epoch, s.now, s.clients[c].session));
    }
  }

  lemma TickInv(cfg: Config, s: State, d: nat)
    requires WellFormed(cfg) && Inv(cfg, s)
    ensures Inv(cfg, Step(cfg, s, Tick(d)))
  {
    var s' := Step(cfg, s, Tick(d));
    assert forall a <- s'.acks :: Fresh(cfg, s', a) ==> Fresh(cfg, s, a);
    assert forall c <- s'.clients :: Leading(s', c) ==> Leading(s, c);
  }

  lemma LossInv(cfg: Config, s: State, net: set<Message>, acks: set<Ack>)
    requires WellFormed(cfg) && Inv(cfg, s) && net <= s.net && acks <= s.acks
    ensures Inv(cfg, s.(net := net, acks := acks))
  {
    var s' := s.(net := net, acks := acks);
    assert forall a <- acks :: Fresh(cfg, s', a) ==> Fresh(cfg, s, a);
    assert forall c <- s'.clients :: Leading(s', c) ==> Leading(s, c);
  }

  lemma StepInv(cfg: Config, s: State, e: Event)
    requires WellFormed(cfg) && Disciplined(cfg) && Inv(cfg, s)
    ensures Inv(cfg, Step(cfg, s, e))
  {
    match e
    case Tick(d) => TickInv(cfg, s, d);
    case SendAcquire(c, kind, record, epoch) => SendAcquireInv(cfg, s, c, kind, record, epoch);
    case SendRelease(c, record, epoch) => SendReleaseInv(cfg, s, c, record, epoch);
    case Apply(m) =>
      if m in s.net {
        ApplyKeepsLog(cfg, s, m);
        ApplyKeepsLead(cfg, s, m);
      }
    case Drop(m) => LossInv(cfg, s, s.net - {m}, s.acks);
    case Receive(a) => ReceiveInv(cfg, s, a);
    case LoseAck(a) => LossInv(cfg, s, s.net, s.acks - {a});
    case Restart(c) => if c in s.clients { LeaveInv(cfg, s, c); }
  }

  lemma ReceiveKeepsNet(cfg: Config, s: State, a: Ack)
    requires WellFormed(cfg) && Inv(cfg, s)
    ensures var s' := Step(cfg, s, Receive(a)); LogInv(cfg, s') && NetInv(cfg, s') && ReleaseInv(s')
  {
    var s' := Step(cfg, s, Receive(a));
    assert s'.acks <= s.acks && s'.net == s.net && s'.log == s.log && s'.cell == s.cell;
    assert s'.clients.Keys == s.clients.Keys;
    assert forall c <- s.clients :: s'.clients[c].session == s.clients[c].session;
  }

  lemma ReceiveInv(cfg: Config, s: State, a: Ack)
    requires WellFormed(cfg) && Inv(cfg, s)
    ensures Inv(cfg, Step(cfg, s, Receive(a)))
  {
    if a in s.acks && a.to in s.clients && s.clients[a.to].session == a.session {
      ReceiveKeepsNet(cfg, s, a);
      ReceiveKeepsLead(cfg, s, a);
    } else {
      LossInv(cfg, s, s.net, s.acks - {a});
    }
  }

  lemma ReceiveKeepsLead(cfg: Config, s: State, a: Ack)
    requires WellFormed(cfg) && NetInv(cfg, s) && LeadInv(cfg, s)
    requires a in s.acks && a.to in s.clients && s.clients[a.to].session == a.session
    requires NetInv(cfg, Step(cfg, s, Receive(a)))
    ensures LeadInv(cfg, Step(cfg, s, Receive(a)))
  {
    var s' := Step(cfg, s, Receive(a));
    assert s.now < a.sentAt + cfg.horizon[a.to] ==> Fresh(cfg, s, a);
    assert forall b <- s'.acks :: Fresh(cfg, s', b) ==> Fresh(cfg, s, b);
    assert forall c <- s.clients :: c != a.to ==> (Leading(s', c) <==> Leading(s, c));
  }

  lemma {:induction false} RunInv(cfg: Config, s: State, es: seq<Event>)
    requires WellFormed(cfg) && Disciplined(cfg) && Inv(cfg, s)
    ensures Inv(cfg, Run(cfg, s, es))
  {
    if es != [] {
      RunInv(cfg, s, es[..|es| - 1]);
      StepInv(cfg, Run(cfg, s, es[..|es| - 1]), es[|es| - 1]);
    }
  }

  // ---------------------------------------------------------------------------
  // Safety over every run
  // ---------------------------------------------------------------------------

  /** In every reachable state at most one client counts itself leader, and its id is what
      Redis still reports as the unexpired holder. */
  lemma LeaseMutualExclusion(cfg: Config, es: seq<Event>)
    requires WellFormed(cfg) && Disciplined(cfg)
    ensures var s := Run(cfg, Init(cfg), es);
            && AtMostOneLeader(s)
            && forall c :: Leading(s, c) ==>
                 Abs(s.cell, s.now).Held? && Abs(s.cell, s.now).id == c
  {
    InitInv(cfg);
    RunInv(cfg, Init(cfg), es);
  }

  // Each rule is needed: a run that breaks exclusion when it is not followed.

  function Campaign(cfg: Config, c: Id): Record
    requires c in cfg.lease
  {
    Record(c, cfg.lease[c], 0, 0, 0)
  }

  const RELEASE := Record("", 1, 0, 0, 0)

  lemma RunSnoc(cfg: Config, s: State, es: seq<Event>, e: Event)
    ensures Run(cfg, s, es + [e]) == Step(cfg, Run(cfg, s, es), e)
  {
    assert (es + [e])[..|es|] == es;
  }

  /** d campaigns, Redis grants it at once, and d hears of it. */
  function Acquisition(cfg: Config, s: State, d: Id, kind: Kind): (Event, Event, Event)
    requires d in cfg.lease && d in s.clients
  {
    var m := Message(d, kind, Campaign(cfg, d), "", s.now, s.clients[d].session);
    (SendAcquire(d, kind, Campaign(cfg, d), ""), Apply(m), Receive(Ack(d, s.now, s.clients[d].session)))
  }

  /** Such an acquisition makes d a leader and leaves the others as they were. */
  lemma Acquires(cfg: Config, s: State, d: Id, kind: Kind)
    requires WellFormed(cfg) && d in cfg.lease && s.clients.Keys == cfg.lease.Keys
    requires cfg.drains ==> forall m <- s.net :: m.from == d ==> !IsRelease(m)
    requires Execute(s.cell, s.now, Message(d, kind, Campaign(cfg, d), "", s.now, s.clients[d].session)).1 == Done
    ensures var (a, b, c) := Acquisition(cfg, s, d, kind);
            var t := Step(cfg, Step(cfg, Step(cfg, s, a), b), c);
            && Leading(t, d) && t.clients[d].session == s.clients[d].session
            && t.now == s.now && t.clients.Keys == s.clients.Keys
            && (forall k :: k != d && k in s.clients ==> t.clients[k] == s.clients[k])
            && t.net == s.net + {b.m}
            && t.cell == Execute(s.cell, s.now, b.m).0
  {
  }

  lemma RunAcquisition(cfg: Config, es: seq<Event>, d: Id, kind: Kind) returns (es': seq<Event>)
    requires WellFormed(cfg) && d in cfg.lease && d in Run(cfg, Init(cfg), es).clients
    ensures var s := Run(cfg, Init(cfg), es);
            var (a, b, c) := Acquisition(cfg, s, d, kind);
            Run(cfg, Init(cfg), es') == Step(cfg, Step(cfg, Step(cfg, s, a), b), c)
  {
    var (a, b, c) := Acquisition(cfg, Run(cfg, Init(cfg), es), d, kind);
    RunSnoc(cfg, Init(cfg), es, a);
    RunSnoc(cfg, Init(cfg), es + [a], b);
    RunSnoc(cfg, Init(cfg), es + [a] + [b], c);
    es' := es + [a] + [b] + [c];
  }

  /** c acquires at time 0, its lease runs out, d acquires, and c still counts itself leader. */
  lemma LongHorizonBreaks(cfg: Config, c: Id, d: Id) returns (es: seq<Event>)
    requires WellFormed(cfg) && c in cfg.lease && d in cfg.lease && c != d
    requires cfg.horizon[c] > 1000 * cfg.lease[c]
    ensures !AtMostOneLeader(Run(cfg, Init(cfg), es))
  {
    var s0 := Init(cfg);
    Acquires(cfg, s0, c, CreateCall);
    es := RunAcquisition(cfg, [], c, CreateCall);
    RunSnoc(cfg, s0, es, Tick(1000 * cfg.lease[c]));
    es := es + [Tick(1000 * cfg.lease[c])];
    var s := Run(cfg, s0, es);
    assert s.clients[c].leadUntil == cfg.horizon[c];
    Acquires(cfg, s, d, CreateCall);
    es := RunAcquisition(cfg, es, d, CreateCall);
    var t := Run(cfg, s0, es);
    assert Leading(t, c) && Leading(t, d);
  }

  lemma ReleaseApplies(cfg: Config, s: State, r: Message)
    requires r in s.net && r.kind == UpdateCall && r.record == RELEASE
    requires Lock(s).Held? && Lock(s).id == r.from
    ensures var t := Step(cfg, s, Apply(r));
            t == s.(cell := t.cell, log := t.log) && t.cell == Present(Stored(RELEASE, r.epoch), At(s.now + 1000))
  {
  }

  /** c leads and sends its release without stopping first; d takes the released lock. */
  lemma LeadingReleaseBreaks(cfg: Config, c: Id, d: Id) returns (es: seq<Event>)
    requires WellFormed(cfg) && c in cfg.lease && d in cfg.lease && c != d && !cfg.stopsFirst
    ensures !AtMostOneLeader(Run(cfg, Init(cfg), es))
  {
    var s0 := Init(cfg);
    var r := Message(c, UpdateCall, RELEASE, "", 0, 0);
    Acquires(cfg, s0, c, CreateCall);
    es := RunAcquisition(cfg, [], c, CreateCall);
    RunSnoc(cfg, s0, es, SendRelease(c, RELEASE, ""));
    es := es + [SendRelease(c, RELEASE, "")];
    ReleaseApplies(cfg, Run(cfg, s0, es), r);
    RunSnoc(cfg, s0, es, Apply(r));
    es := es + [Apply(r)];
    Acquires(cfg, Run(cfg, s0, es), d, UpdateCall);
    es := RunAcquisition(cfg, es, d, UpdateCall);
    var t := Run(cfg, s0, es);
    assert Leading(t, c) && Leading(t, d);
  }

  /** c sends a release, campaigns again while it is still in the network, and leads; then the
      release arrives and d takes the lock. */
  lemma LateReleaseBreaks(cfg: Config, c: Id, d: Id) returns (es: seq<Event>)
    requires WellFormed(cfg) && c in cfg.lease && d in cfg.lease && c != d
    requires cfg.stopsFirst && !cfg.drains
    ensures !AtMostOneLeader(Run(cfg, Init(cfg), es))
  {
    var s0 := Init(cfg);
    var r := Message(c, UpdateCall, RELEASE, "", 0, 0);
    RunSnoc(cfg, s0, [], SendRelease(c, RELEASE, ""));
    es := [] + [SendRelease(c, RELEASE, "")];
    Acquires(cfg, Run(cfg, s0, es), c, CreateCall);
    es := RunAcquisition(cfg, es, c, CreateCall);
    ReleaseApplies(cfg, Run(cfg, s0, es), r);
    RunSnoc(cfg, s0, es, Apply(r));
    es := es + [Apply(r)];
    Acquires(cfg, Run(cfg, s0, es), d, UpdateCall);
    es := RunAcquisition(cfg, es, d, UpdateCall);
    var t := Run(cfg, s0, es);
    assert Leading(t, c) && Leading(t, d);
  }

  ghost predicate Safe(cfg: Config)
    requires WellFormed(cfg)
  {
    forall es: seq<Event> :: AtMostOneLeader(Run(cfg, Init(cfg), es))
  }

  /** Exclusion holds over every run exactly when there is only one client, or both release rules
      are followed and no client trusts an acknowledgement for longer than its own lease. */
  lemma ExclusionExactly(cfg: Config)
    requires WellFormed(cfg)
    ensures Safe(cfg) <==>
            (forall c, d :: c in cfg.lease && d in cfg.lease ==> c == d) || Disciplined(cfg)
  {
    if Disciplined(cfg) {
      forall es: seq<Event> ensures AtMostOneLeader(Run(cfg, Init(cfg), es)) {
        LeaseMutualExclusion(cfg, es);
      }
    } else if c, d :| c in cfg.lease && d in cfg.lease && c != d {
      UndisciplinedBreaks(cfg, c, d);
    } else {
      forall es: seq<Event> ensures AtMostOneLeader(Run(cfg, Init(cfg), es)) {
        RunKeepsClients(cfg, Init(cfg), es);
      }
    }
  }

  lemma UndisciplinedBreaks(cfg: Config, c: Id, d: Id)
    requires WellFormed(cfg) && !Disciplined(cfg) && c in cfg.lease && d in cfg.lease && c != d
    ensures !Safe(cfg)
  {
    var es;
    if !cfg.stopsFirst {
      es := LeadingReleaseBreaks(cfg, c, d);
    } else if !cfg.drains {
      es := LateReleaseBreaks(cfg, c, d);
    } else {
      var a :| a in cfg.lease && cfg.horizon[a] > 1000 * cfg.lease[a];
      es := LongHorizonBreaks(cfg, a, if a == c then d else c);
    }
  }

  lemma {:induction false} RunKeepsClients(cfg: Config, s: State, es: seq<Event>)
    ensures Run(cfg, s, es).clients.Keys == s.clients.Keys
  {
    if es != [] {
      RunKeepsClients(cfg, s, es[..|es| - 1]);
    }
  }

  // ---------------------------------------------------------------------------
  // Refinement of the abstract lock, whatever rules the clients follow
  // ---------------------------------------------------------------------------

  lemma ServerStepInv(cfg: Config, s: State, e: Event)
    requires WellFormed(cfg) && LogInv(cfg, s) && SentInv(cfg, s)
    ensures LogInv(cfg, Step(cfg, s, e)) && SentInv(cfg, Step(cfg, s, e))
  {
    SentStepInv(cfg, s, e);
    if e.Apply? && e.m in s.net {
      ApplyKeepsLog(cfg, s, e.m);
    } else {
      var s' := Step(cfg, s, e);
      assert s'.log == s.log && s'.cell == s.cell && s.now <= s'.now;
    }
  }

  lemma SentStepInv(cfg: Config, s: State, e: Event)
    requires WellFormed(cfg) && SentInv(cfg, s)
    ensures SentInv(cfg, Step(cfg, s, e))
  {
  }

  /** Every run keeps the log, also where clients break the rules about horizons and releases. */
  lemma {:induction false} ServerRunInv(cfg: Config, s: State, es: seq<Event>)
    requires WellFormed(cfg) && LogInv(cfg, s) && SentInv(cfg, s)
    ensures LogInv(cfg, Run(cfg, s, es)) && SentInv(cfg, Run(cfg, s, es))
  {
    if es != [] {
      ServerRunInv(cfg, s, es[..|es| - 1]);
      ServerStepInv(cfg, Run(cfg, s, es[..|es| - 1]), es[|es| - 1]);
    }
  }

  function Lock(s: State): Lock {
    Abs(s.cell, s.now)
  }

  /** The steps of the abstract lock: a free lock is granted, a holder renews or releases its own
      lock, and a lock is lost to nobody but the clock. */
  predicate LockStep(a: Lock, b: Lock, e: Event, now: int) {
    match e
    case Apply(m) =>
      || a == b
      || (a == Free && b.Held? && b.id == m.from && b.until.At? && now < b.until.ms)
      || (a.Held? && b.Held? && a.id == b.id == m.from && a.until.At? && b.until.At? && a.until.ms <= b.until.ms)
      || (a.Held? && a.id == m.from && b == Free)
    case Tick(_) =>
      a == b || (a.Held? && a.until.At? && a.until.ms <= now && b == Free)
    case _ => a == b
  }

  /** A request that is refused changes nothing. */
  lemma RefusedChangesNothing(cfg: Config, s: State, m: Message)
    ensures Execute(s.cell, s.now, m).1 != Done ==> Step(cfg, s, Apply(m)) == s
  {
    RefusalsKeepTheKey(s.cell, s.now, m.from, m.record, m.epoch);
  }

  lemma ApplyRefines(cfg: Config, s: State, m: Message)
    requires WellFormed(cfg) && LogInv(cfg, s) && SentInv(cfg, s) && m in s.net
    ensures LockStep(Lock(s), Lock(Step(cfg, s, Apply(m))), Apply(m), s.now)
  {
    var (cell, o) := Execute(s.cell, s.now, m);
    if o == Done && Lock(s).Held? {
      var w := s.log[|s.log| - 1];
      assert w.writer == m.from && w.at <= s.now;
    }
  }

  lemma RefinesLock(cfg: Config, es: seq<Event>, e: Event)
    requires WellFormed(cfg)
    ensures var s := Run(cfg, Init(cfg), es);
            LockStep(Lock(s), Lock(Step(cfg, s, e)), e, Step(cfg, s, e).now)
  {
    var s := Run(cfg, Init(cfg), es);
    ServerRunInv(cfg, Init(cfg), es);
    if e.Apply? && e.m in s.net {
      ApplyRefines(cfg, s, e.m);
    }
  }

  /** In every reachable state: what `Get` sees is the last applied write, unless that write has
      run out; the lock is held exactly from a holder's write until that write's time-to-live
      ends; and a Free lock admits exactly one of Create and Update, the one `Get` points to. */
  lemma Handover(cfg: Config, es: seq<Event>, id: Id, rec: Record, epoch: string)
    requires WellFormed(cfg) && rec.leaseDurationSeconds >= 1
    ensures
      var s := Run(cfg, Init(cfg), es);
      var seen := Visible(s.cell, s.now);
      && (s.log == [] ==> seen.None? && Lock(s) == Free)
      && (s.log != [] ==>
            var w := s.log[|s.log| - 1];
            && (seen.Some? <==> s.now < w.at + Ttl(w))
            && (seen.Some? ==> seen.value == Stored(w.record, w.epoch))
            && (Lock(s).Held? <==> w.record.holderIdentity != "" && s.now < w.at + Ttl(w))
            && (Lock(s).Held? ==> Lock(s) == Held(w.writer, At(w.at + Ttl(w)))))
      && (Lock(s) == Free ==>
            && (seen.None? <==> CreateSucceeds(s.cell, s.now, rec, epoch))
            && (seen.Some? <==> UpdateSucceeds(s.cell, s.now, id, rec, epoch)))
  {
    ServerRunInv(cfg, Init(cfg), es);
  }

  // ---------------------------------------------------------------------------
  // No stealing
  // ---------------------------------------------------------------------------

  lemma {:induction false} LogGrows(cfg: Config, s: State, es: seq<Event>)
    ensures s.log <= Run(cfg, s, es).log
  {
    if es != [] {
      LogGrows(cfg, s, es[..|es| - 1]);
    }
  }

  /** The index of a's last write in log[..n], given one at `from`. */
  function LastWrite(log: seq<Write>, a: Id, from: nat, n: nat): (k: nat)
    requires from < n <= |log| && log[from].writer == a
    ensures from <= k < n && log[k].writer == a
    ensures forall j :: k < j < n ==> log[j].writer != a
    decreases n
  {
    if log[n - 1].writer == a then n - 1 else LastWrite(log, a, from, n - 1)
  }

  function StoredHolder(s: State): Id {
    if s.cell.Present? then s.cell.value.record.holderIdentity else ""
  }

  /** The same on one log: if a wrote at `from` and somebody else wrote last. */
  lemma LastWriteEnds(cfg: Config, s: State, a: Id, from: nat) returns (k: nat)
    requires WellFormed(cfg) && LogInv(cfg, s) && a != ""
    requires from < |s.log| && s.log[from].writer == a && s.log[|s.log| - 1].writer != a
    ensures k + 1 < |s.log| && s.log[k].writer == a
    ensures forall j :: k < j < |s.log| ==> s.log[j].writer != a
    ensures s.log[k].record.holderIdentity == "" || s.log[k].at + Ttl(s.log[k]) <= s.log[k + 1].at
  {
    k := LastWrite(s.log, a, from, |s.log|);
    assert MayFollow(s.log[k], s.log[k + 1]);
  }

  /** Whenever the stored holder changes from a to another b, then k, the last write of a before
      that, either was a's own release or had run out when the next write came. */
  lemma NoStealing(cfg: Config, es: seq<Event>, more: seq<Event>) returns (k: nat)
    requires WellFormed(cfg)
    requires var a := StoredHolder(Run(cfg, Init(cfg), es));
             var b := StoredHolder(Run(cfg, Run(cfg, Init(cfg), es), more));
             a != "" && b != "" && a != b
    ensures
      var a := StoredHolder(Run(cfg, Init(cfg), es));
      var log := Run(cfg, Run(cfg, Init(cfg), es), more).log;
      && k + 1 < |log| && log[k].writer == a
      && (forall j :: k < j < |log| ==> log[j].writer != a)
      && (log[k].record.holderIdentity == "" || log[k].at + Ttl(log[k]) <= log[k + 1].at)
  {
    var s := Run(cfg, Init(cfg), es);
    var t := Run(cfg, s, more);
    assert LogInv(cfg, s) && LogInv(cfg, t) by {
      ServerRunInv(cfg, Init(cfg), es);
      ServerRunInv(cfg, s, more);
    }
    LogGrows(cfg, s, more);
    assert t.log[|s.log| - 1] == s.log[|s.log| - 1];
    k := LastWriteEnds(cfg, t, StoredHolder(s), |s.log| - 1);
  }
}
