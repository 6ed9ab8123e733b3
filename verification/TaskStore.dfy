/** Background tasks: the records, their in-memory store, and the runner's
    table of cancel scopes.

    Times are seconds; a retention is in milliseconds, as in the records. Ids,
    messages and payloads are plain numbers. */
module TaskStore {
  import opened Wrappers

  type Id = int
  type Message = int

  datatype Status = Working | Completed | Failed | Cancelled

  datatype Payload = Payload(content: int, isError: bool)

  datatype Record = Record(
    status: Status,
    created: real,
    updated: real,
    ttlMs: Option<int>,
    message: Option<Message>,
    result: Option<Payload>)

  predicate Terminal(status: Status) {
    status != Working
  }

  /** A settled record is past its retention. */
  predicate Expired(r: Record, now: real) {
    r.ttlMs.Some? && Terminal(r.status) && (now - r.updated) * 1000.0 > r.ttlMs.value as real
  }

  /** The record after an update: what the update leaves out is kept. */
  function Replaced(r: Record, now: real, status: Status, message: Option<Message>, result: Option<Payload>): Record {
    r.(status := status, updated := now,
       message := if message.Some? then message else r.message,
       result := if result.Some? then result else r.result)
  }

  /** What a read returns. */
  function Found(records: map<Id, Record>, id: Id, now: real): Option<Record> {
    if id in records && !Expired(records[id], now) then Some(records[id]) else None
  }

  /** A read or an update of an expired record drops it. */
  function Purged(records: map<Id, Record>, id: Id, now: real): map<Id, Record> {
    if id in records && Expired(records[id], now) then records - {id} else records
  }

  function Updated(records: map<Id, Record>, id: Id, now: real, status: Status, message: Option<Message>,
                   result: Option<Payload>)
    : map<Id, Record>
  {
    var kept := Purged(records, id, now);
    if id in kept then kept[id := Replaced(kept[id], now, status, message, result)] else kept
  }

  class InMemoryTaskStore {
    var records: map<Id, Record>

    constructor ()
      ensures records == map[]
    {
      records := map[];
    }

    method Create(id: Id, record: Record)
      modifies this
      ensures records == old(records)[id := record]
    {
      records := records[id := record];
    }

    method Get(id: Id, now: real) returns (found: Option<Record>)
      modifies this
      ensures found == Found(old(records), id, now)
      ensures records == Purged(old(records), id, now)
      ensures found.Some? <==> id in records
      ensures records == old(records) || (id in old(records) && records == old(records) - {id})
    {
      if id !in records {
        return None;
      }
      if Expired(records[id], now) {
        records := records - {id};
        return None;
      }
      return Some(records[id]);
    }

    method Update(id: Id, now: real, status: Status, message: Option<Message>, result: Option<Payload>)
      modifies this
      ensures records == Updated(old(records), id, now, status, message, result)
      ensures id in records <==> id in old(records) && !Expired(old(records)[id], now)
      ensures id in records ==>
        var r := old(records)[id];
        records[id] == Record(status, r.created, now, r.ttlMs, if message.Some? then message else r.message,
                              if result.Some? then result else r.result)
      ensures records - {id} == old(records) - {id}
    {
      if id !in records {
        return;
      }
      if Expired(records[id], now) {
        records := records - {id};
        return;
      }
      records := records[id := Replaced(records[id], now, status, message, result)];
    }
  }

  // ----------------------------------------------------------------- runner

  /** How a job ended: it produced a payload, its own await was cancelled, or it
      raised past its last-resort guard. */
  datatype Ending = Produced(payload: Payload) | Stopped | Raised(message: Message)

  /** The message of a cancelled task. */
  const CancelledMessage: Message := 0

  function EndStatus(ending: Ending): Status {
    match ending
    case Produced(p) => if p.isError then Failed else Completed
    case Stopped => Cancelled
    case Raised(_) => Failed
  }

  function EndMessage(ending: Ending): Option<Message> {
    match ending
    case Produced(_) => None
    case Stopped => Some(CancelledMessage)
    case Raised(m) => Some(m)
  }

  function EndResult(ending: Ending): Option<Payload> {
    if ending.Produced? then Some(ending.payload) else None
  }

  /** The store's records and the cancel scopes, with whether each was asked to
      cancel. */
  datatype Tables = Tables(records: map<Id, Record>, scopes: map<Id, bool>)

  function Fresh(now: real, ttlMs: Option<int>): Record {
    Record(Working, now, now, ttlMs, None, None)
  }

  class TaskRunner {
    const store: InMemoryTaskStore
    var scopes: map<Id, bool>

    ghost function Contents(): Tables
      reads this, store
    {
      Tables(store.records, scopes)
    }

    constructor (store: InMemoryTaskStore)
      ensures this.store == store && Contents() == Tables(store.records, map[])
    {
      this.store := store;
      scopes := map[];
    }

    method Start(id: Id, now: real, ttlMs: Option<int>) returns (record: Record)
      modifies this, store
      ensures record == Fresh(now, ttlMs)
      ensures Contents() == Tables(old(store.records)[id := record], old(scopes)[id := false])
    {
      record := Record(Working, now, now, ttlMs, None, None);
      store.Create(id, record);
      scopes := scopes[id := false];
    }

    method Cancel(id: Id)
      modifies this`scopes
      ensures Contents() == Tables(old(store.records), Asked(old(scopes), id))
    {
      if id in scopes {
        scopes := scopes[id := true];
      }
    }

    /** The shielded final write, and the scope's removal after it. */
    method Finish(id: Id, now: real, ending: Ending)
      modifies this, store
      ensures Contents() == Tables(Written(old(store.records), id, now, ending), old(scopes) - {id})
    {
      match ending {
        case Stopped => store.Update(id, now, Cancelled, Some(CancelledMessage), None);
        case Produced(payload) =>
          var status := if payload.isError then Failed else Completed;
          store.Update(id, now, status, None, Some(payload));
        case Raised(message) => store.Update(id, now, Failed, Some(message), None);
      }
      Leave(id);
    }

    /** The end of a job that the closing nursery cancelled: no write at all. */
    method Leave(id: Id)
      modifies this`scopes
      ensures Contents() == Tables(old(store.records), old(scopes) - {id})
    {
      scopes := scopes - {id};
    }
  }

  function Asked(scopes: map<Id, bool>, id: Id): map<Id, bool> {
    if id in scopes then scopes[id := true] else scopes
  }

  function Written(records: map<Id, Record>, id: Id, now: real, ending: Ending): map<Id, Record> {
    Updated(records, id, now, EndStatus(ending), EndMessage(ending), EndResult(ending))
  }

  // ------------------------------------------------------------- advertised

  /** The retention a client is told, counted from creation. */
  function TtlFromCreation(r: Record): Option<int> {
    if r.ttlMs.None? || !Terminal(r.status) then None
    else Some(((r.updated - r.created) * 1000.0).Floor + r.ttlMs.value)
  }

  /** The status a `tasks/get` answer shows, and the result it carries. */
  function ShownStatus(r: Record): Status {
    if r.result.Some? && (r.status == Completed || r.status == Failed) then Completed else r.status
  }

  function ShownResult(r: Record): Option<Payload> {
    if r.result.Some? && (r.status == Completed || r.status == Failed) then r.result else None
  }

  /** The advertised end never lies past the instant of real expiry, and falls
      short of it by less than a millisecond. */
  lemma AdvertisedIsTight(r: Record, now: real)
    requires Terminal(r.status) && r.ttlMs.Some? && r.created <= r.updated
    ensures var told := TtlFromCreation(r).value as real;
      && ((now - r.created) * 1000.0 <= told ==> !Expired(r, now))
      && ((now - r.created) * 1000.0 >= told + 1.0 ==> Expired(r, now))
  {
  }
}
