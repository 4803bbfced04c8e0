/** The Redis-backed resource lock: one Redis key that stores a leader-election record
    under a time-to-live, and the three operations of the lock on it.
    Redis time is in milliseconds; a key is visible as long as `now < expiry`. */
module RedisLock {
  import opened Options

  datatype Record = Record(
    holderIdentity: string,
    leaseDurationSeconds: int,
    acquireTime: int,
    renewTime: int,
    leaderTransitions: int)

  datatype Stored = Stored(record: Record, epoch: string)

  datatype Expiry = Never | At(ms: int)

  datatype Cell = Absent | Present(value: Stored, expiry: Expiry)

  /** What a call of the lock reports: success, or which error. */
  datatype Outcome = Done | AlreadyExists | KeyNotFound | NotHolder | InvalidExpire

  const NANOS_PER_SECOND := 1_000_000_000
  const NANOS_PER_MILLI := 1_000_000

  /** The value a reader sees at time `now`: nothing once the key has expired. */
  function Visible(cell: Cell, now: int): Option<Stored> {
    match cell
    case Absent => None
    case Present(v, Never) => Some(v)
    case Present(v, At(ms)) => if now < ms then Some(v) else None
  }

  /** The server and its clock. The client library turns a zero `SetNX` duration into a key
      without expiry, and sends whole seconds otherwise; Redis rejects a time-to-live that is
      not positive. */
  class Redis {
    var cell: Cell
    var now: int

    constructor ()
      ensures cell == Absent && now == 0
    {
      cell, now := Absent, 0;
    }

    method Get() returns (r: Option<Stored>)
      ensures r == Visible(cell, now)
    {
      match cell
      case Absent => r := None;
      case Present(v, Never) => r := Some(v);
      case Present(v, At(ms)) =>
        if now < ms { r := Some(v); } else { r := None; }
    }

    method SetNX(v: Stored, ttlNanos: int) returns (o: Outcome)
      modifies this`cell
      ensures o == if ttlNanos < 0 then InvalidExpire
                   else if Visible(old(cell), now).Some? then AlreadyExists else Done
      ensures o != Done ==> cell == old(cell)
      ensures o == Done ==>
                cell == Present(v, if ttlNanos == 0 then Never
                                   else At(now + 1000 * (ttlNanos / NANOS_PER_SECOND)))
    {
      if ttlNanos < 0 { return InvalidExpire; }
      var present := Get();
      if present.Some? { return AlreadyExists; }
      cell := Present(v, if ttlNanos == 0 then Never
                         else At(now + 1000 * (ttlNanos / NANOS_PER_SECOND)));
      return Done;
    }

    method SetPX(v: Stored, ttlMillis: int) returns (o: Outcome)
      modifies this`cell
      ensures o == if ttlMillis <= 0 then InvalidExpire else Done
      ensures cell == if o == Done then Present(v, At(now + ttlMillis)) else old(cell)
    {
      if ttlMillis <= 0 { return InvalidExpire; }
      cell := Present(v, At(now + ttlMillis));
      return Done;
    }
  }

  /** `Create` on a key, as a function: it succeeds only when nothing is visible. */
  function ApplyCreate(cell: Cell, now: int, rec: Record, epoch: string): (Cell, Outcome) {
    if rec.leaseDurationSeconds < 0 then (cell, InvalidExpire)
    else if Visible(cell, now).Some? then (cell, AlreadyExists)
    else (Present(Stored(rec, epoch),
                  if rec.leaseDurationSeconds == 0 then Never
                  else At(now + 1000 * rec.leaseDurationSeconds)), Done)
  }

  /** `Update` on a key by `id`, as a function: it succeeds only over a visible record held by
      `id` or by nobody. */
  function ApplyUpdate(cell: Cell, now: int, id: string, rec: Record, epoch: string): (Cell, Outcome) {
    match Visible(cell, now)
    case None => (cell, KeyNotFound)
    case Some(st) =>
      if st.record.holderIdentity != id && st.record.holderIdentity != "" then (cell, NotHolder)
      else if rec.leaseDurationSeconds <= 0 then (cell, InvalidExpire)
      else (Present(Stored(rec, epoch), At(now + 1000 * rec.leaseDurationSeconds)), Done)
  }

  /** The lock object. `epoch` stands for the wall clock each write stamps into the value. */
  class RedisLock {
    const client: Redis
    const identity: string

    constructor (client: Redis, identity: string)
      ensures this.client == client && this.identity == identity
    {
      this.client, this.identity := client, identity;
    }

    /** None stands for the NotFound error. */
    method Get() returns (r: Option<Record>)
      ensures r.Some? <==> Visible(client.cell, client.now).Some?
      ensures r.Some? ==> r.value == Visible(client.cell, client.now).value.record
    {
      var b := client.Get();
      match b
      case None => r := None;
      case Some(st) => r := Some(st.record);
    }

    method Create(rec: Record, epoch: string) returns (o: Outcome)
      modifies client`cell
      ensures (client.cell, o) == ApplyCreate(old(client.cell), client.now, rec, epoch)
    {
      var ttl := rec.leaseDurationSeconds * NANOS_PER_SECOND;
      o := client.SetNX(Stored(rec, epoch), ttl);
    }

    /** The script reads, checks and writes the key in one atomic server step. */
    method Update(rec: Record, epoch: string) returns (o: Outcome)
      modifies client`cell
      ensures (client.cell, o) == ApplyUpdate(old(client.cell), client.now, identity, rec, epoch)
    {
      var ttl := (rec.leaseDurationSeconds * NANOS_PER_SECOND) / NANOS_PER_MILLI;
      var val := client.Get();
      if val.None? { return KeyNotFound; }
      var current := val.value;
      if current.record.holderIdentity != identity && current.record.holderIdentity != "" {
        return NotHolder;
      }
      current := current.(record := rec);
      current := current.(epoch := epoch);
      o := client.SetPX(current, ttl);
    }
  }

  // ---------------------------------------------------------------------------
  // The abstract lock behind the key
  // ---------------------------------------------------------------------------

  /** An absent key, an expired key and a key whose holder is empty all mean Free. */
  datatype Lock = Free | Held(id: string, until: Expiry)

  function Abs(cell: Cell, now: int): Lock {
    match Visible(cell, now)
    case None => Free
    case Some(st) =>
      if st.record.holderIdentity == "" then Free
      else Held(st.record.holderIdentity, cell.expiry)
  }

  predicate CreateSucceeds(cell: Cell, now: int, rec: Record, epoch: string) {
    ApplyCreate(cell, now, rec, epoch).1 == Done
  }

  predicate UpdateSucceeds(cell: Cell, now: int, id: string, rec: Record, epoch: string) {
    ApplyUpdate(cell, now, id, rec, epoch).1 == Done
  }

  /** Every outcome other than Done leaves the key as it was, and which refusal comes when: Create is
      refused over a visible key or for a negative duration; Update over an invisible key, over the
      record of another holder, or for a duration that is not positive, in this order. */
  lemma RefusalsKeepTheKey(cell: Cell, now: int, id: string, rec: Record, epoch: string)
    ensures var (c, o) := ApplyCreate(cell, now, rec, epoch);
            && (o != Done ==> c == cell)
            && (o == InvalidExpire <==> rec.leaseDurationSeconds < 0)
            && (o == AlreadyExists <==> rec.leaseDurationSeconds >= 0 && Visible(cell, now).Some?)
            && o != KeyNotFound && o != NotHolder
    ensures var (c, o) := ApplyUpdate(cell, now, id, rec, epoch);
            && (o != Done ==> c == cell)
            && (o == KeyNotFound <==> Visible(cell, now).None?)
            && (o == NotHolder <==> Abs(cell, now).Held? && Abs(cell, now).id != id)
            && (o == InvalidExpire <==>
                  && Visible(cell, now).Some? && (Abs(cell, now).Held? ==> Abs(cell, now).id == id)
                  && rec.leaseDurationSeconds <= 0)
            && o != AlreadyExists
  {
  }

  /** Who can write: while the lock is Free exactly one of the two calls succeeds, for every
      caller, and what `Get` sees says which; while it is Held only the holder's `Update` does. */
  lemma WhoCanWrite(cell: Cell, now: int, id: string, rec: Record, epoch: string)
    requires rec.leaseDurationSeconds >= 1
    ensures Abs(cell, now).Free? ==>
              (CreateSucceeds(cell, now, rec, epoch) <==> !UpdateSucceeds(cell, now, id, rec, epoch))
    ensures Abs(cell, now).Free? ==>
              (CreateSucceeds(cell, now, rec, epoch) <==> Visible(cell, now).None?)
    ensures Abs(cell, now).Held? ==>
              && !CreateSucceeds(cell, now, rec, epoch)
              && (UpdateSucceeds(cell, now, id, rec, epoch) <==> Abs(cell, now).id == id)
  {
  }

  /** The lease a write opens, whichever call made it: Create's seconds and Update's
      milliseconds give the same lock, which ends after exactly that many seconds. A zero
      duration is the exception: `Create` then never ends and `Update` is refused. */
  lemma LeaseEndsOnTime(cell: Cell, now: int, id: string, rec: Record, epoch: string, later: int)
    requires id != "" && rec.holderIdentity == id && rec.leaseDurationSeconds >= 0 && now <= later
    ensures CreateSucceeds(cell, now, rec, epoch) ==>
              (Abs(ApplyCreate(cell, now, rec, epoch).0, later).Held? <==>
               rec.leaseDurationSeconds == 0 || later < now + 1000 * rec.leaseDurationSeconds)
    ensures UpdateSucceeds(cell, now, id, rec, epoch) ==>
              (Abs(ApplyUpdate(cell, now, id, rec, epoch).0, later).Held? <==>
               later < now + 1000 * rec.leaseDurationSeconds)
  {
  }
}
