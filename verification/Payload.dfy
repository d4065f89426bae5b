/** The payload store (core/payload.py): values kept beside the chain, which can be destroyed without
    touching it. AES-GCM is symbolic: a blob opens under the key and the payload id it was sealed with,
    and under nothing else. */
module Payload {
  import opened Wrappers
  import opened Json
  import opened Sorting
  import opened Canonical
  import R = Retention

  datatype PayloadReference = PayloadReference(payloadId: string, payloadDigest: string, classification: string,
                                               retentionClass: string, redactions: seq<string>)

  datatype Blob = Blob(key: nat, associated: string, plaintext: string)

  datatype PayloadError = UnknownClassification | NotCanonical(why: Error) | Destroyed | Tampered | Unreadable
    | DigestMismatch | MayNot(retention: R.RetentionError) | OnHold | AlreadyDestroyed | NoSchedule

  /** The folders on disk and what one store instance remembers. */
  datatype Store = Store(
    keys: map<string, nat>,
    blobs: map<string, Blob>,
    holds: set<string>,
    created: map<string, real>,
    retention: map<string, string>)

  datatype DestructionEvent = DestructionEvent(reference: PayloadReference, requester: string, reason: string)

  predicate IsClassification(s: string) {
    s == "public" || s == "internal" || s == "confidential" || s == "restricted"
  }

  function Decrypt(blob: Blob, key: nat, associated: string): Option<string> {
    if blob.key == key && blob.associated == associated then Some(blob.plaintext) else None
  }

  function Put(s: Store, p: Platform, sha: Sha, value: Value, classification: string, retentionClass: string,
               redactions: seq<string>, id: string, key: nat, now: real)
    : (Store, Result<PayloadReference, PayloadError>)
  {
    if !IsClassification(classification) then (s, Err(UnknownClassification))
    else
      match Dumps(p, value)
      case Err(e) => (s, Err(NotCanonical(e)))
      case Ok(body) =>
        (Store(s.keys[id := key], s.blobs[id := Blob(key, id, body)], s.holds, s.created[id := now],
               s.retention[id := retentionClass]),
         Ok(PayloadReference(id, sha(body), classification, retentionClass, redactions)))
  }

  function Get(s: Store, p: Platform, sha: Sha, reference: PayloadReference): Result<Value, PayloadError> {
    var id := reference.payloadId;
    if id !in s.keys || id !in s.blobs then Err(Destroyed)
    else
      match Decrypt(s.blobs[id], s.keys[id], id)
      case None => Err(Tampered)
      case Some(plaintext) =>
        match Parse(p, Plain, plaintext)
        case None => Err(Unreadable)
        case Some(value) =>
          match Digest(p, sha, value)
          case Err(e) => Err(NotCanonical(e))
          case Ok(d) => if d != reference.payloadDigest then Err(DigestMismatch) else Ok(value)
  }

  function PlaceHold(s: Store, id: string): Store {
    s.(holds := s.holds + {id})
  }

  function ReleaseHold(s: Store, id: string): Store {
    s.(holds := s.holds - {id})
  }

  /** What the schedule is asked about a payload. A payload this store did not create counts as created
      at time zero, under the class its reference names. */
  function ItemOf(s: Store, id: string, fallbackClass: string): R.Item {
    R.Item(id, if id in s.retention then s.retention[id] else fallbackClass,
           if id in s.created then s.created[id] else 0.0, id in s.holds)
  }

  function Permitted(s: Store, schedule: Option<R.Schedule>, reference: PayloadReference, now: real)
    : Result<(), PayloadError>
  {
    match schedule
    case Some(classes) =>
      (match R.RequireDestroyable(classes, ItemOf(s, reference.payloadId, reference.retentionClass), now)
       case Err(e) => Err(MayNot(e))
       case Ok(_) => Ok(()))
    case None => if reference.payloadId in s.holds then Err(OnHold) else Ok(())
  }

  function Destroy(s: Store, schedule: Option<R.Schedule>, reference: PayloadReference, requester: string,
                   reason: string, now: real)
    : (Store, Result<DestructionEvent, PayloadError>)
  {
    var id := reference.payloadId;
    match Permitted(s, schedule, reference, now)
    case Err(e) => (s, Err(e))
    case Ok(_) =>
      if id !in s.keys && id !in s.blobs then (s, Err(AlreadyDestroyed))
      else (s.(keys := s.keys - {id}, blobs := s.blobs - {id}), Ok(DestructionEvent(reference, requester, reason)))
  }

  /** The random bytes written over a key file and over a blob file. */
  datatype Noise = Noise(key: nat, blob: Blob)

  /** The folders after each write to the key file, and to the blob file: overwritten, then unlinked. */
  function KeyWrites(s: Store, id: string, noise: Noise): seq<Store> {
    if id in s.keys then [s.(keys := s.keys[id := noise.key]), s.(keys := s.keys - {id})] else []
  }

  function BlobWrites(s: Store, id: string, noise: Noise): seq<Store> {
    if id in s.blobs then [s.(blobs := s.blobs[id := noise.blob]), s.(blobs := s.blobs - {id})] else []
  }

  /** The folders after each write of a destruction, in order. */
  function Writes(s: Store, id: string, noise: Noise): seq<Store> {
    KeyWrites(s, id, noise) + BlobWrites(s.(keys := s.keys - {id}), id, noise)
  }

  /** Those writes, as far as the loop over the two folders has come. */
  function WrittenBy(s: Store, id: string, noise: Noise, folders: nat): seq<Store> {
    if folders == 0 then []
    else if folders == 1 then KeyWrites(s, id, noise)
    else Writes(s, id, noise)
  }

  // ------------------------------------------------------------------ what a sweep is told

  function Names(ids: seq<string>): (r: seq<Entry>)
    ensures |r| == |ids| && forall i | 0 <= i < |ids| :: r[i] == Entry(ids[i], Null)
  {
    seq(|ids|, i requires 0 <= i < |ids| => Entry(ids[i], Null))
  }

  function Keys(entries: seq<Entry>): (r: seq<string>)
    ensures |r| == |entries| && forall i | 0 <= i < |entries| :: r[i] == entries[i].key
  {
    seq(|entries|, i requires 0 <= i < |entries| => entries[i].key)
  }

  function SortedIds(ids: seq<string>): seq<string> {
    Keys(SortEntries(Names(ids)))
  }

  /** Live payloads among the ids, with class, age and hold. */
  function Pending(s: Store, ids: seq<string>): seq<R.Item> {
    if ids == [] then []
    else (if ids[0] in s.blobs then [ItemOf(s, ids[0], "standard")] else []) + Pending(s, ids[1..])
  }

  /** `order` lists the ids this store has created, in insertion order; the report is sorted by id. */
  function Status(s: Store, order: seq<string>, own: Option<R.Schedule>, given: Option<R.Schedule>, now: real)
    : Result<seq<R.Decision>, PayloadError>
  {
    var chosen := if given.Some? then given else own;
    match chosen
    case None => Err(NoSchedule)
    case Some(schedule) =>
      match R.Sweep(schedule, Pending(s, SortedIds(order)), now)
      case Err(e) => Err(MayNot(e))
      case Ok(decisions) => Ok(decisions)
  }

  // ------------------------------------------------------------------ the store object

  class PayloadStore {
    const schedule: Option<R.Schedule>
    var keys: map<string, nat>
    var blobs: map<string, Blob>
    var holds: set<string>
    var created: map<string, real>
    var retention: map<string, string>
    var order: seq<string>

    ghost function Model(): Store
      reads this
    {
      Store(keys, blobs, holds, created, retention)
    }

    /** Opens a store over whatever the folders hold; it remembers nothing of what it finds there. */
    constructor (schedule: Option<R.Schedule>, keysOnDisk: map<string, nat>, blobsOnDisk: map<string, Blob>)
      ensures Model() == Store(keysOnDisk, blobsOnDisk, {}, map[], map[]) && this.schedule == schedule && order == []
    {
      this.schedule := schedule;
      keys, blobs := keysOnDisk, blobsOnDisk;
      holds, created, retention, order := {}, map[], map[], [];
    }

    method PutPayload(p: Platform, sha: Sha, value: Value, classification: string, retentionClass: string,
                      redactions: seq<string>, id: string, key: nat, now: real)
      returns (r: Result<PayloadReference, PayloadError>)
      modifies this
      ensures (Model(), r) == Put(old(Model()), p, sha, value, classification, retentionClass, redactions, id, key, now)
      ensures order == if r.Ok? && id !in old(created) then old(order) + [id] else old(order)
    {
      if !IsClassification(classification) { return Err(UnknownClassification); }
      var body := Dumps(p, value);
      if body.Err? { return Err(NotCanonical(body.error)); }
      if id !in created { order := order + [id]; }
      created := created[id := now];
      retention := retention[id := retentionClass];
      keys := keys[id := key];
      blobs := blobs[id := Blob(key, id, body.value)];
      return Ok(PayloadReference(id, sha(body.value), classification, retentionClass, redactions));
    }

    method GetPayload(p: Platform, sha: Sha, reference: PayloadReference) returns (r: Result<Value, PayloadError>)
      ensures r == Get(Model(), p, sha, reference)
    {
      var id := reference.payloadId;
      if id !in keys || id !in blobs { return Err(Destroyed); }
      var plaintext := Decrypt(blobs[id], keys[id], id);
      if plaintext.None? { return Err(Tampered); }
      var value := Parse(p, Plain, plaintext.value);
      if value.None? { return Err(Unreadable); }
      var d := Digest(p, sha, value.value);
      if d.Err? { return Err(NotCanonical(d.error)); }
      if d.value != reference.payloadDigest { return Err(DigestMismatch); }
      return Ok(value.value);
    }

    method Hold(id: string)
      modifies this
      ensures Model() == PlaceHold(old(Model()), id) && order == old(order)
    {
      holds := holds + {id};
    }

    method Release(id: string)
      modifies this
      ensures Model() == ReleaseHold(old(Model()), id) && order == old(order)
    {
      holds := holds - {id};
    }

    /** Asks the schedule, then overwrites and removes the file in each of the two folders. `written` is what
        was in the folders after each write: what would be left if the process stopped there. */
    method DestroyPayload(reference: PayloadReference, requester: string, reason: string, now: real, noise: Noise)
      returns (r: Result<DestructionEvent, PayloadError>, ghost written: seq<Store>)
      modifies this
      ensures (Model(), r) == Destroy(old(Model()), schedule, reference, requester, reason, now) && order == old(order)
      ensures written == if r.Ok? then Writes(old(Model()), reference.payloadId, noise) else []
    {
      var id := reference.payloadId;
      written := [];
      if schedule.Some? {
        var item := R.Item(id, if id in retention then retention[id] else reference.retentionClass,
                           if id in created then created[id] else 0.0, id in holds);
        var decision := R.RequireDestroyable(schedule.value, item, now);
        if decision.Err? {
          r := Err(MayNot(decision.error));
          return;
        }
      } else if id in holds {
        r := Err(OnHold);
        return;
      }
      var removed := false;
      for folder := 0 to 2
        invariant keys == (if folder > 0 then old(keys) - {id} else old(keys))
        invariant blobs == (if folder > 1 then old(blobs) - {id} else old(blobs))
        invariant removed <==> (folder > 0 && id in old(keys)) || (folder > 1 && id in old(blobs))
        invariant unchanged(`holds, `created, `retention, `order)
        invariant written == WrittenBy(old(Model()), id, noise, folder)
      {
        if folder == 0 && id in keys {
          keys := keys[id := noise.key];
          written := written + [Model()];
          keys := keys - {id};
          written := written + [Model()];
          removed := true;
        } else if folder == 1 && id in blobs {
          blobs := blobs[id := noise.blob];
          written := written + [Model()];
          blobs := blobs - {id};
          written := written + [Model()];
          removed := true;
        }
        assert (old(keys)[id := noise.key]) - {id} == old(keys) - {id};
        assert (old(blobs)[id := noise.blob]) - {id} == old(blobs) - {id};
      }
      if removed {
        r := Ok(DestructionEvent(reference, requester, reason));
      } else {
        assert keys == old(keys) && blobs == old(blobs);
        r := Err(AlreadyDestroyed);
      }
    }

    /** The store's payloads judged on the store's own clock. */
    method RetentionStatus(given: Option<R.Schedule>, now: real) returns (r: Result<seq<R.Decision>, PayloadError>)
      ensures r == Status(Model(), order, schedule, given, now)
    {
      var chosen := if given.Some? then given else schedule;
      if chosen.None? { return Err(NoSchedule); }
      var decisions := R.Sweep(chosen.value, Pending(Store(keys, blobs, holds, created, retention), SortedIds(order)),
                               now);
      return if decisions.Ok? then Ok(decisions.value) else Err(MayNot(decisions.error));
    }
  }
}
