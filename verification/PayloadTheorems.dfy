/** Retention over runs: a payload is readable until it is destroyed, and it is destroyed only when the
    schedule permits it. */
module PayloadTheorems {
  import opened Wrappers
  import opened Json
  import opened Sorting
  import opened Canonical
  import opened CanonicalTheorems
  import opened Payload
  import R = Retention

  // ------------------------------------------------------------------ put, then get

  /** What was put is read back as its canonical value, exactly when no string of it was lengthened
      past the limit by normalisation: then the digest check of `get` fails on a payload that was stored. */
  lemma {:induction false} GetAfterPut(s: Store, p: Platform, sha: Sha, value: Value, classification: string,
                                       retentionClass: string, redactions: seq<string>, id: string, key: nat, now: real)
    requires NfcSettles(p) && FloatsPrint(p, value)
    requires Put(s, p, sha, value, classification, retentionClass, redactions, id, key, now).1.Ok?
    ensures var (after, reference) := Put(s, p, sha, value, classification, retentionClass, redactions, id, key, now);
            Get(after, p, sha, reference.value)
              == if ShortStrings(NormalOf(p, value)) then Ok(SortKeys(NormalOf(p, value)))
              else Err(NotCanonical(StringTooLong))
    ensures Same(NormalOf(p, value), SortKeys(NormalOf(p, value)))
  {
    DumpsParses(p, Plain, value);
    CanonicalTextIsStable(p, value);
    LoadsInvertsDumps(p, value);
  }

  /** A payload that is stored and cannot be read back. */
  lemma {:induction false} StoredButUnreadable(s: Store, sha: Sha, id: string, key: nat, now: real)
    ensures var p, value := Doubling(), Str(LongText());
            var (after, reference) := Put(s, p, sha, value, "internal", "standard", [], id, key, now);
            reference.Ok? && Get(after, p, sha, reference.value) == Err(NotCanonical(StringTooLong))
  {
    SecondPassCanFail();
    GetAfterPut(s, Doubling(), sha, Str(LongText()), "internal", "standard", [], id, key, now);
  }

  /** A put succeeds exactly for one of the four classifications and a value that can be dumped; it then writes the key
      and the blob, sealed under that key for that id, and remembers the class and the time. */
  lemma {:induction false} PutSucceedsExactlyWhen(s: Store, p: Platform, sha: Sha, value: Value, classification: string,
                                                  retentionClass: string, redactions: seq<string>, id: string, key: nat,
                                                  now: real)
    ensures var (after, r) := Put(s, p, sha, value, classification, retentionClass, redactions, id, key, now);
            && (r.Ok? <==>
                  && (classification == "public" || classification == "internal" || classification == "confidential"
                      || classification == "restricted")
                  && Dumps(p, value).Ok?)
            && (r.Err? ==> after == s)
            && (r.Ok? ==>
                  var text := Dumps(p, value).value;
                  && r.value == PayloadReference(id, sha(text), classification, retentionClass, redactions)
                  && after.keys == s.keys[id := key] && after.blobs == s.blobs[id := Blob(key, id, text)]
                  && after.created == s.created[id := now] && after.retention == s.retention[id := retentionClass]
                  && after.holds == s.holds)
  {
  }

  /** `get` answers with a value exactly if key and blob are there, the blob was sealed under that key for that id, and
      what it holds reads as a value with the digest in the reference. A blob under another key or another id is
      tampered with, and a value with another digest does not match. */
  lemma {:induction false} GetAnswersExactlyWhen(s: Store, p: Platform, sha: Sha, reference: PayloadReference)
    ensures var id, answer := reference.payloadId, Get(s, p, sha, reference);
            && (answer == Err(Destroyed) <==> id !in s.keys || id !in s.blobs)
            && (id in s.keys && id in s.blobs ==>
                  var blob := s.blobs[id];
                  var sealed := blob.key == s.keys[id] && blob.associated == id;
                  var held := Parse(p, Plain, blob.plaintext);
                  && (answer == Err(Tampered) <==> !sealed)
                  && (answer == Err(DigestMismatch) <==>
                        && sealed && held.Some? && Digest(p, sha, held.value).Ok?
                        && Digest(p, sha, held.value).value != reference.payloadDigest)
                  && (answer.Ok? <==> sealed && held.Some? && Digest(p, sha, held.value) == Ok(reference.payloadDigest))
                  && (answer.Ok? ==> answer.value == held.value))
  {
  }

  // ------------------------------------------------------------------ destruction

  /** Whether a destruction is permitted: never on hold; under a schedule for a class it knows and once its minimum
      period is over, by what this store remembers, and else by the class of the reference and from time zero. */
  predicate MayDestroy(s: Store, schedule: Option<R.Schedule>, reference: PayloadReference, now: real) {
    var id := reference.payloadId;
    && id !in s.holds
    && (schedule.Some? ==>
          var named := R.ClassNamed(schedule.value, if id in s.retention then s.retention[id]
                                                    else reference.retentionClass);
          named.Some? && now >= (if id in s.created then s.created[id] else 0.0) + named.value.minimumDays * 86400.0)
  }

  /** With or without a schedule: destruction succeeds exactly if it is permitted and there is something to destroy;
      it then takes key and blob, and nothing of any other payload. */
  lemma {:induction false} DestroyEndsExactly(s: Store, schedule: Option<R.Schedule>, reference: PayloadReference,
                                              requester: string, reason: string, now: real)
    ensures var (after, r) := Destroy(s, schedule, reference, requester, reason, now);
            var id := reference.payloadId;
            && (r.Ok? <==> MayDestroy(s, schedule, reference, now) && (id in s.keys || id in s.blobs))
            && (r.Ok? ==>
                  && r.value == DestructionEvent(reference, requester, reason)
                  && after.keys == s.keys - {id} && after.blobs == s.blobs - {id}
                  && after.holds == s.holds && after.created == s.created && after.retention == s.retention)
            && (r.Err? ==> after == s)
            && (r == Err(OnHold) <==> schedule.None? && id in s.holds)
            && (r == Err(AlreadyDestroyed) <==>
                  MayDestroy(s, schedule, reference, now) && id !in s.keys && id !in s.blobs)
  {
  }

  // ------------------------------------------------------------------ runs

  datatype StoreOp =
    | PutOp(value: Value, classification: string, retentionClass: string, redactions: seq<string>, id: string, key: nat,
            at: real)
    | HoldOp(id: string)
    | ReleaseOp(id: string)
    | DestroyOp(reference: PayloadReference, requester: string, reason: string, at: real)

  function Apply(s: Store, p: Platform, sha: Sha, schedule: Option<R.Schedule>, op: StoreOp): Store {
    match op
    case PutOp(value, classification, retentionClass, redactions, id, key, at) =>
      Put(s, p, sha, value, classification, retentionClass, redactions, id, key, at).0
    case HoldOp(id) => PlaceHold(s, id)
    case ReleaseOp(id) => ReleaseHold(s, id)
    case DestroyOp(reference, requester, reason, at) => Destroy(s, schedule, reference, requester, reason, at).0
  }

  function Run(s: Store, p: Platform, sha: Sha, schedule: Option<R.Schedule>, ops: seq<StoreOp>): Store {
    if ops == [] then s
    else Apply(Run(s, p, sha, schedule, ops[..|ops| - 1]), p, sha, schedule, ops[|ops| - 1])
  }

  /** The steps of a run are the operations of the store. */
  lemma {:induction false} StepsAreOperations(s: Store, p: Platform, sha: Sha, schedule: Option<R.Schedule>,
                                              op: StoreOp)
    ensures op.PutOp? ==>
              Apply(s, p, sha, schedule, op)
                == Put(s, p, sha, op.value, op.classification, op.retentionClass, op.redactions, op.id, op.key, op.at).0
    ensures op.HoldOp? ==> Apply(s, p, sha, schedule, op) == PlaceHold(s, op.id)
    ensures op.ReleaseOp? ==> Apply(s, p, sha, schedule, op) == ReleaseHold(s, op.id)
    ensures op.DestroyOp? ==>
              Apply(s, p, sha, schedule, op) == Destroy(s, schedule, op.reference, op.requester, op.reason, op.at).0
  {
  }

  /** A payload as it was put. */
  datatype Deposit = Deposit(id: string, key: nat, body: string, createdAt: real, retentionClass: string)

  ghost predicate Stored(s: Store, x: Deposit) {
    && x.id in s.keys && s.keys[x.id] == x.key
    && x.id in s.blobs && s.blobs[x.id] == Blob(x.key, x.id, x.body)
    && x.id in s.created && s.created[x.id] == x.createdAt
    && x.id in s.retention && s.retention[x.id] == x.retentionClass
  }

  ghost predicate Gone(s: Store, id: string) {
    id !in s.keys && id !in s.blobs
  }

  /** Ids are not issued twice. */
  ghost predicate NotReissued(ops: seq<StoreOp>, id: string) {
    forall i | 0 <= i < |ops| :: ops[i].PutOp? ==> ops[i].id != id
  }

  /** The end of the minimum period of a payload's class, if the schedule knows the class. */
  ghost predicate Due(schedule: R.Schedule, x: Deposit, now: real) {
    && R.ClassNamed(schedule, x.retentionClass).Some?
    && now >= x.createdAt + R.ClassNamed(schedule, x.retentionClass).value.minimumDays * 86400.0
  }

  /** The k-th step destroyed the payload, off hold and not before it was due. */
  ghost predicate DestroyedDuly(s: Store, p: Platform, sha: Sha, schedule: R.Schedule, ops: seq<StoreOp>, k: nat,
                                x: Deposit)
    requires k < |ops|
  {
    && ops[k].DestroyOp? && ops[k].reference.payloadId == x.id
    && x.id !in Run(s, p, sha, Some(schedule), ops[..k]).holds && Due(schedule, x, ops[k].at)
  }

  lemma {:induction false} PutIsStored(s: Store, p: Platform, sha: Sha, value: Value, classification: string,
                                       retentionClass: string, redactions: seq<string>, id: string, key: nat, now: real)
    requires Put(s, p, sha, value, classification, retentionClass, redactions, id, key, now).1.Ok?
    ensures Stored(Put(s, p, sha, value, classification, retentionClass, redactions, id, key, now).0,
                   Deposit(id, key, Dumps(p, value).value, now, retentionClass))
  {
  }

  /** Destroying a stored payload succeeds exactly off hold and from the day it is due; then it is gone. */
  lemma {:induction false} DestroySucceedsExactlyWhen(s: Store, schedule: R.Schedule, x: Deposit,
                                                      reference: PayloadReference, requester: string, reason: string,
                                                      now: real)
    requires Stored(s, x) && reference.payloadId == x.id
    ensures var (after, r) := Destroy(s, Some(schedule), reference, requester, reason, now);
            && (r.Ok? <==> x.id !in s.holds && Due(schedule, x, now))
            && (if r.Ok? then Gone(after, x.id) && r.value == DestructionEvent(reference, requester, reason)
                else after == s)
  {
    R.DestroyableExactlyWhen(schedule, ItemOf(s, x.id, reference.retentionClass), now);
  }

  /** Wherever a destruction stops: once its first write is done, no reference to the payload reads it any more,
      as long as the random key is not the key. After the last write the store is as `destroy` leaves it. */
  lemma {:induction false} UnreadableFromTheFirstWrite(s: Store, p: Platform, sha: Sha, schedule: Option<R.Schedule>,
                                                       x: Deposit, reference: PayloadReference, requester: string,
                                                       reason: string, now: real, noise: Noise)
    requires Stored(s, x) && reference.payloadId == x.id && noise.key != x.key
    requires Destroy(s, schedule, reference, requester, reason, now).1.Ok?
    ensures var written := Writes(s, x.id, noise);
            && |written| == 4 && written[3] == Destroy(s, schedule, reference, requester, reason, now).0
            && forall k | 0 <= k < |written| :: Get(written[k], p, sha, reference).Err?
  {
    var written := Writes(s, x.id, noise);
    assert Get(written[0], p, sha, reference) == Err(Tampered);
  }

  lemma {:induction false} StepKeepsOrDestroys(s: Store, p: Platform, sha: Sha, schedule: R.Schedule, op: StoreOp,
                                               x: Deposit)
    requires Stored(s, x) && (op.PutOp? ==> op.id != x.id)
    ensures var after := Apply(s, p, sha, Some(schedule), op);
            Stored(after, x)
            || (Gone(after, x.id) && op.DestroyOp? && op.reference.payloadId == x.id && x.id !in s.holds
                && Due(schedule, x, op.at))
  {
    if op.DestroyOp? && op.reference.payloadId == x.id {
      DestroySucceedsExactlyWhen(s, schedule, x, op.reference, op.requester, op.reason, op.at);
    }
  }

  lemma {:induction false} GoneStaysGone(s: Store, p: Platform, sha: Sha, schedule: Option<R.Schedule>, op: StoreOp,
                                         id: string)
    requires Gone(s, id) && (op.PutOp? ==> op.id != id)
    ensures Gone(Apply(s, p, sha, schedule, op), id)
  {
  }

  /** Over every run of the store: a payload is still there as it was put, or it is gone and some step of
      the run destroyed it, off hold, at a reading no earlier than its creation plus the minimum period. */
  lemma {:induction false} KeptUntilDue(s: Store, p: Platform, sha: Sha, schedule: R.Schedule, ops: seq<StoreOp>,
                                        x: Deposit)
    requires Stored(s, x) && NotReissued(ops, x.id)
    ensures var after := Run(s, p, sha, Some(schedule), ops);
            Stored(after, x)
            || (Gone(after, x.id) && exists k: nat | k < |ops| :: DestroyedDuly(s, p, sha, schedule, ops, k, x))
  {
    if ops != [] {
      var n := |ops| - 1;
      var shorter := ops[..n];
      KeptUntilDue(s, p, sha, schedule, shorter, x);
      var mid := Run(s, p, sha, Some(schedule), shorter);
      if Stored(mid, x) {
        StepKeepsOrDestroys(mid, p, sha, schedule, ops[n], x);
        if !Stored(Run(s, p, sha, Some(schedule), ops), x) { assert DestroyedDuly(s, p, sha, schedule, ops, n, x); }
      } else {
        GoneStaysGone(mid, p, sha, Some(schedule), ops[n], x.id);
        var k: nat :| k < n && DestroyedDuly(s, p, sha, schedule, shorter, k, x);
        assert shorter[..k] == ops[..k] && shorter[k] == ops[k];
        assert DestroyedDuly(s, p, sha, schedule, ops, k, x);
      }
    }
  }

  /** Without a schedule, destroying a stored payload succeeds exactly if it is not on hold; then it is gone. */
  lemma {:induction false} DestroyWithoutSchedule(s: Store, x: Deposit, reference: PayloadReference, requester: string,
                                                  reason: string, now: real)
    requires Stored(s, x) && reference.payloadId == x.id
    ensures var (after, r) := Destroy(s, None, reference, requester, reason, now);
            && (r.Ok? <==> x.id !in s.holds)
            && (if r.Ok? then Gone(after, x.id) && r.value == DestructionEvent(reference, requester, reason)
                else after == s && r == Err(OnHold))
  {
    DestroyEndsExactly(s, None, reference, requester, reason, now);
  }

  /** The k-th step of a run without a schedule destroyed the payload, off hold. */
  ghost predicate DestroyedOffHold(s: Store, p: Platform, sha: Sha, ops: seq<StoreOp>, k: nat, id: string)
    requires k < |ops|
  {
    ops[k].DestroyOp? && ops[k].reference.payloadId == id && id !in Run(s, p, sha, None, ops[..k]).holds
  }

  lemma {:induction false} StepWithoutSchedule(s: Store, p: Platform, sha: Sha, op: StoreOp, x: Deposit)
    requires Stored(s, x) && (op.PutOp? ==> op.id != x.id)
    ensures var after := Apply(s, p, sha, None, op);
            Stored(after, x)
            || (Gone(after, x.id) && op.DestroyOp? && op.reference.payloadId == x.id && x.id !in s.holds)
  {
    if op.DestroyOp? && op.reference.payloadId == x.id {
      DestroyWithoutSchedule(s, x, op.reference, op.requester, op.reason, op.at);
    }
  }

  /** Over every run of a store without a schedule: a payload is still there as it was put, or it is gone and some step
      of the run destroyed it while it was off hold. */
  lemma {:induction false} KeptUnlessDestroyedOffHold(s: Store, p: Platform, sha: Sha, ops: seq<StoreOp>, x: Deposit)
    requires Stored(s, x) && NotReissued(ops, x.id)
    ensures var after := Run(s, p, sha, None, ops);
            Stored(after, x)
            || (Gone(after, x.id) && exists k: nat | k < |ops| :: DestroyedOffHold(s, p, sha, ops, k, x.id))
  {
    if ops != [] {
      var n := |ops| - 1;
      var shorter := ops[..n];
      KeptUnlessDestroyedOffHold(s, p, sha, shorter, x);
      var mid := Run(s, p, sha, None, shorter);
      if Stored(mid, x) {
        StepWithoutSchedule(mid, p, sha, ops[n], x);
        if !Stored(Run(s, p, sha, None, ops), x) { assert DestroyedOffHold(s, p, sha, ops, n, x.id); }
      } else {
        GoneStaysGone(mid, p, sha, None, ops[n], x.id);
        var k: nat :| k < n && DestroyedOffHold(s, p, sha, shorter, k, x.id);
        assert shorter[..k] == ops[..k] && shorter[k] == ops[k];
        assert DestroyedOffHold(s, p, sha, ops, k, x.id);
      }
    }
  }

  /** No step of the run lifts a hold on this payload. */
  ghost predicate NotReleased(ops: seq<StoreOp>, id: string) {
    forall i | 0 <= i < |ops| :: ops[i].ReleaseOp? ==> ops[i].id != id
  }

  lemma {:induction false} HeldStepKeeps(s: Store, p: Platform, sha: Sha, schedule: Option<R.Schedule>, op: StoreOp,
                                         x: Deposit)
    requires Stored(s, x) && x.id in s.holds
    requires (op.PutOp? ==> op.id != x.id) && (op.ReleaseOp? ==> op.id != x.id)
    ensures Stored(Apply(s, p, sha, schedule, op), x) && x.id in Apply(s, p, sha, schedule, op).holds
  {
    if op.DestroyOp? { DestroyEndsExactly(s, schedule, op.reference, op.requester, op.reason, op.at); }
  }

  /** A payload on hold survives every run that does not lift the hold, with a schedule or without, as it was put. */
  lemma {:induction false} HeldSurvives(s: Store, p: Platform, sha: Sha, schedule: Option<R.Schedule>,
                                        ops: seq<StoreOp>, x: Deposit)
    requires Stored(s, x) && x.id in s.holds && NotReissued(ops, x.id) && NotReleased(ops, x.id)
    ensures Stored(Run(s, p, sha, schedule, ops), x) && x.id in Run(s, p, sha, schedule, ops).holds
  {
    if ops != [] {
      var n := |ops| - 1;
      HeldSurvives(s, p, sha, schedule, ops[..n], x);
      HeldStepKeeps(Run(s, p, sha, schedule, ops[..n]), p, sha, schedule, ops[n], x);
    }
  }

  /** Placing a hold holds that payload and releasing it releases that one, and neither touches anything else. */
  lemma {:induction false} HoldsAreTheirOwn(s: Store, id: string, other: string)
    ensures other in PlaceHold(s, id).holds <==> other == id || other in s.holds
    ensures other in ReleaseHold(s, id).holds <==> other != id && other in s.holds
    ensures PlaceHold(s, id).(holds := s.holds) == s && ReleaseHold(s, id).(holds := s.holds) == s
  {
  }

  /** Readable while stored, and not after: what `get` answers depends on nothing else in the store. */
  lemma {:induction false} ReadableWhileStored(s: Store, t: Store, p: Platform, sha: Sha, reference: PayloadReference,
                                               x: Deposit)
    requires Stored(s, x) && reference.payloadId == x.id
    ensures Stored(t, x) ==> Get(t, p, sha, reference) == Get(s, p, sha, reference)
    ensures Gone(t, x.id) ==> Get(t, p, sha, reference) == Err(Destroyed)
  {
  }

  /** From a put on, over every run: the reference keeps answering as it did at first, until a step of
      the run duly destroys the payload; from then on it answers that the payload was destroyed. */
  lemma {:induction false} PutStaysReadable(s: Store, p: Platform, sha: Sha, schedule: R.Schedule, value: Value,
                                            classification: string, retentionClass: string, redactions: seq<string>,
                                            id: string, key: nat, now: real, ops: seq<StoreOp>)
    requires Put(s, p, sha, value, classification, retentionClass, redactions, id, key, now).1.Ok?
             && NotReissued(ops, id)
    ensures var (start, reference) := Put(s, p, sha, value, classification, retentionClass, redactions, id, key, now);
            var x := Deposit(id, key, Dumps(p, value).value, now, retentionClass);
            var answer := Get(Run(start, p, sha, Some(schedule), ops), p, sha, reference.value);
            || (answer == Get(start, p, sha, reference.value) && Stored(Run(start, p, sha, Some(schedule), ops), x))
            || (answer == Err(Destroyed)
                && exists k: nat | k < |ops| :: DestroyedDuly(start, p, sha, schedule, ops, k, x))
  {
    var (start, reference) := Put(s, p, sha, value, classification, retentionClass, redactions, id, key, now);
    var x := Deposit(id, key, Dumps(p, value).value, now, retentionClass);
    PutIsStored(s, p, sha, value, classification, retentionClass, redactions, id, key, now);
    KeptUntilDue(start, p, sha, schedule, ops, x);
    ReadableWhileStored(start, Run(start, p, sha, Some(schedule), ops), p, sha, reference.value, x);
  }

  // ------------------------------------------------------------------ the report and the act

  /** `order` lists what this store created, and of that, a key and a blob are there together or not at all. */
  ghost predicate Tracks(s: Store, order: seq<string>) {
    && (forall id :: id in order <==> id in s.created)
    && (forall id | id in s.created :: id in s.retention && (id in s.keys <==> id in s.blobs))
  }

  function OrderAfter(s: Store, p: Platform, order: seq<string>, op: StoreOp): seq<string> {
    if op.PutOp? && IsClassification(op.classification) && Dumps(p, op.value).Ok? && op.id !in s.created
    then order + [op.id]
    else order
  }

  lemma {:induction false} StepKeepsTracks(s: Store, p: Platform, sha: Sha, schedule: Option<R.Schedule>,
                                           order: seq<string>, op: StoreOp)
    requires Tracks(s, order)
    ensures Tracks(Apply(s, p, sha, schedule, op), OrderAfter(s, p, order, op))
  {
  }

  /** A store as its constructor leaves it, over whatever the folders hold. */
  function Opened(keys: map<string, nat>, blobs: map<string, Blob>): Store {
    Store(keys, blobs, {}, map[], map[])
  }

  /** The ids a store has created by the end of a run from its opening, in insertion order. */
  function OrderOf(s: Store, p: Platform, sha: Sha, schedule: Option<R.Schedule>, ops: seq<StoreOp>): seq<string> {
    if ops == [] then []
    else
      var shorter := ops[..|ops| - 1];
      OrderAfter(Run(s, p, sha, schedule, shorter), p, OrderOf(s, p, sha, schedule, shorter), ops[|ops| - 1])
  }

  /** Every run of a store keeps track: it lists exactly what it created, and destroys key and blob together. */
  lemma {:induction false} RunTracks(keys: map<string, nat>, blobs: map<string, Blob>, p: Platform, sha: Sha,
                                     schedule: Option<R.Schedule>, ops: seq<StoreOp>)
    ensures var s := Opened(keys, blobs);
            Tracks(Run(s, p, sha, schedule, ops), OrderOf(s, p, sha, schedule, ops))
  {
    if ops != [] {
      var n := |ops| - 1;
      var s := Opened(keys, blobs);
      RunTracks(keys, blobs, p, sha, schedule, ops[..n]);
      StepKeepsTracks(Run(s, p, sha, schedule, ops[..n]), p, sha, schedule, OrderOf(s, p, sha, schedule, ops[..n]),
                      ops[n]);
    }
  }

  lemma {:induction false} SortedIdsMembers(ids: seq<string>, id: string)
    ensures id in SortedIds(ids) <==> id in ids
  {
    var names := Names(ids);
    var sorted := SortEntries(names);
    SortIsPermutation(names);
    if id in ids {
      var i :| 0 <= i < |ids| && ids[i] == id;
      assert names[i] in multiset(sorted);
      var k :| 0 <= k < |sorted| && sorted[k] == names[i];
      assert SortedIds(ids)[k] == id;
    }
    if id in SortedIds(ids) {
      var k :| 0 <= k < |sorted| && SortedIds(ids)[k] == id;
      assert sorted[k] in multiset(names);
      var i :| 0 <= i < |names| && names[i] == sorted[k];
      assert ids[i] == id;
    }
  }

  ghost predicate IsLiveItem(s: Store, ids: seq<string>, item: R.Item) {
    item.payloadId in ids && item.payloadId in s.blobs && item == ItemOf(s, item.payloadId, "standard")
  }

  /** What a sweep is told: of each live id its item, and nothing else. */
  lemma {:induction false} PendingItem(s: Store, ids: seq<string>, i: nat)
    requires i < |Pending(s, ids)|
    ensures IsLiveItem(s, ids, Pending(s, ids)[i])
  {
    var n := if ids[0] in s.blobs then 1 else 0;
    if i >= n { PendingItem(s, ids[1..], i - n); }
  }

  lemma {:induction false} LiveIsPending(s: Store, ids: seq<string>, id: string) returns (i: nat)
    requires id in ids && id in s.blobs
    ensures i < |Pending(s, ids)| && Pending(s, ids)[i] == ItemOf(s, id, "standard")
  {
    if ids[0] == id {
      i := 0;
    } else {
      i := LiveIsPending(s, ids[1..], id);
      i := i + if ids[0] in s.blobs then 1 else 0;
    }
  }

  ghost predicate Reported(decisions: seq<R.Decision>, id: string) {
    exists i | 0 <= i < |decisions| :: decisions[i].payloadId == id && decisions[i].MayDestroy()
  }

  lemma {:induction false} ReportedExactlyWhen(s: Store, ids: seq<string>, schedule: R.Schedule, now: real, id: string)
    requires R.Sweep(schedule, Pending(s, ids), now).Ok?
    ensures Reported(R.Sweep(schedule, Pending(s, ids), now).value, id)
       <==> id in ids && id in s.blobs && R.RequireDestroyable(schedule, ItemOf(s, id, "standard"), now).Ok?
  {
    var items := Pending(s, ids);
    var decisions := R.Sweep(schedule, items, now).value;
    R.SweepPointwise(schedule, items, now);
    if Reported(decisions, id) {
      var i :| 0 <= i < |decisions| && decisions[i].payloadId == id && decisions[i].MayDestroy();
      assert R.Decide(schedule, items[i], now) == Ok(decisions[i]);
      PendingItem(s, ids, i);
    }
    if id in ids && id in s.blobs && R.RequireDestroyable(schedule, ItemOf(s, id, "standard"), now).Ok? {
      var i := LiveIsPending(s, ids, id);
      assert R.Decide(schedule, items[i], now) == Ok(decisions[i]);
    }
  }

  ghost predicate ClassKnown(s: Store, schedule: R.Schedule, id: string) {
    id in s.retention && R.ClassNamed(schedule, s.retention[id]).Some?
  }

  ghost predicate ItemKnown(schedule: R.Schedule, item: R.Item) {
    R.ClassNamed(schedule, item.retentionClass).Some?
  }

  ghost predicate AllKnown(s: Store, schedule: R.Schedule) {
    forall id | id in s.created :: id in s.blobs ==> ClassKnown(s, schedule, id)
  }

  ghost predicate KnownAmong(s: Store, ids: seq<string>, schedule: R.Schedule) {
    forall id | id in ids :: id in s.blobs ==> ClassKnown(s, schedule, id)
  }

  lemma {:induction false} SameIds(s: Store, ids: seq<string>, schedule: R.Schedule)
    requires forall id :: id in ids <==> id in s.created
    ensures KnownAmong(s, ids, schedule) <==> AllKnown(s, schedule)
  {
    if AllKnown(s, schedule) {
      forall id | id in ids ensures id in s.blobs ==> ClassKnown(s, schedule, id) { assert id in s.created; }
    }
    if KnownAmong(s, ids, schedule) {
      forall id | id in s.created ensures id in s.blobs ==> ClassKnown(s, schedule, id) { assert id in ids; }
    }
  }

  lemma {:induction false} SweepKnown(s: Store, ids: seq<string>, schedule: R.Schedule, now: real)
    requires forall id | id in ids :: id in s.retention
    ensures R.Sweep(schedule, Pending(s, ids), now).Ok? <==> KnownAmong(s, ids, schedule)
  {
    var items := Pending(s, ids);
    R.SweepPointwise(schedule, items, now);
    assert R.Sweep(schedule, items, now).Ok? <==> forall i | 0 <= i < |items| :: ItemKnown(schedule, items[i]);
    StatusKnown(s, ids, schedule);
  }

  lemma {:induction false} TrackedStatusAgrees(s: Store, order: seq<string>, schedule: R.Schedule, now: real)
    requires Tracks(s, order)
    ensures Status(s, order, Some(schedule), None, now).Ok? <==> AllKnown(s, schedule)
    ensures Status(s, order, Some(schedule), None, now).Ok? ==>
              forall reference: PayloadReference, requester, reason | reference.payloadId in s.created ::
                Reported(Status(s, order, Some(schedule), None, now).value, reference.payloadId)
                <==> Destroy(s, Some(schedule), reference, requester, reason, now).1.Ok?
  {
    var ids := SortedIds(order);
    forall id ensures id in ids <==> id in s.created { SortedIdsMembers(order, id); }
    SweepKnown(s, ids, schedule, now);
    SameIds(s, ids, schedule);
    if R.Sweep(schedule, Pending(s, ids), now).Ok? {
      forall reference: PayloadReference, requester: string, reason: string | reference.payloadId in s.created
        ensures Reported(R.Sweep(schedule, Pending(s, ids), now).value, reference.payloadId)
           <==> Destroy(s, Some(schedule), reference, requester, reason, now).1.Ok?
      {
        ReportedExactlyWhen(s, ids, schedule, now, reference.payloadId);
      }
    }
  }

  /** The schedule given to `retention_status` comes before the store's own, and with neither there is no report. */
  lemma {:induction false} GivenScheduleComesFirst(s: Store, order: seq<string>, own: Option<R.Schedule>,
                                                   given: R.Schedule, now: real)
    ensures Status(s, order, own, Some(given), now) == Status(s, order, Some(given), None, now)
    ensures Status(s, order, None, None, now) == Err(NoSchedule)
  {
  }

  /** A report is in the order of the ids. */
  lemma {:induction false} StatusIsSorted(s: Store, order: seq<string>, own: Option<R.Schedule>,
                                          given: Option<R.Schedule>, now: real, i: nat, j: nat)
    requires Status(s, order, own, given, now).Ok?
    requires i < j < |Status(s, order, own, given, now).value|
    ensures var decisions := Status(s, order, own, given, now).value;
            AtMost(decisions[i].payloadId, decisions[j].payloadId)
  {
    var ids := SortedIds(order);
    var schedule := if given.Some? then given.value else own.value;
    R.SweepPointwise(schedule, Pending(s, ids), now);
    SortIsSorted(Names(order));
    PendingSorted(s, ids);
    var decisions := Status(s, order, own, given, now).value;
    assert R.Decide(schedule, Pending(s, ids)[i], now) == Ok(decisions[i]);
    assert R.Decide(schedule, Pending(s, ids)[j], now) == Ok(decisions[j]);
  }

  ghost predicate IdsSorted(ids: seq<string>) {
    forall i, j | 0 <= i < j < |ids| :: AtMost(ids[i], ids[j])
  }

  lemma {:induction false} PendingSorted(s: Store, ids: seq<string>)
    requires IdsSorted(ids)
    ensures forall i, j | 0 <= i < j < |Pending(s, ids)| ::
              AtMost(Pending(s, ids)[i].payloadId, Pending(s, ids)[j].payloadId)
  {
    if ids != [] {
      PendingSorted(s, ids[1..]);
      forall k | 0 <= k < |Pending(s, ids[1..])| ensures AtMost(ids[0], Pending(s, ids[1..])[k].payloadId) {
        PendingItem(s, ids[1..], k);
      }
    }
  }

  lemma {:induction false} ItemOfKnown(s: Store, schedule: R.Schedule, id: string)
    requires id in s.retention
    ensures ItemKnown(schedule, ItemOf(s, id, "standard")) <==> ClassKnown(s, schedule, id)
  {
  }

  lemma {:induction false} StatusKnown(s: Store, ids: seq<string>, schedule: R.Schedule)
    requires forall id | id in ids :: id in s.retention
    ensures (forall i | 0 <= i < |Pending(s, ids)| :: ItemKnown(schedule, Pending(s, ids)[i]))
       <==> KnownAmong(s, ids, schedule)
  {
    var items := Pending(s, ids);
    if forall i | 0 <= i < |items| :: ItemKnown(schedule, items[i]) {
      forall id | id in ids ensures id in s.blobs ==> ClassKnown(s, schedule, id) {
        if id in s.blobs {
          var i := LiveIsPending(s, ids, id);
          assert ItemKnown(schedule, items[i]);
          ItemOfKnown(s, schedule, id);
        }
      }
    }
    if KnownAmong(s, ids, schedule) {
      forall i | 0 <= i < |items| ensures ItemKnown(schedule, items[i]) {
        PendingItem(s, ids, i);
        ItemOfKnown(s, schedule, items[i].payloadId);
      }
    }
  }

  /** At the end of every run of a store: the report is there exactly when the class of every live payload
      it created is known, and it says of exactly those payloads that they may be destroyed which
      `destroy` would accept at the same reading, whatever reference names them. */
  lemma {:induction false} StatusAgreesWithDestroy(keys: map<string, nat>, blobs: map<string, Blob>, p: Platform,
                                                   sha: Sha, schedule: R.Schedule, ops: seq<StoreOp>, now: real)
    ensures var s := Run(Opened(keys, blobs), p, sha, Some(schedule), ops);
            var status := Status(s, OrderOf(Opened(keys, blobs), p, sha, Some(schedule), ops), Some(schedule), None,
                                 now);
            && (status.Ok? <==> AllKnown(s, schedule))
            && (status.Ok? ==>
                  forall reference: PayloadReference, requester, reason | reference.payloadId in s.created ::
                    Reported(status.value, reference.payloadId)
                    <==> Destroy(s, Some(schedule), reference, requester, reason, now).1.Ok?)
  {
    var s := Run(Opened(keys, blobs), p, sha, Some(schedule), ops);
    RunTracks(keys, blobs, p, sha, Some(schedule), ops);
    TrackedStatusAgrees(s, OrderOf(Opened(keys, blobs), p, sha, Some(schedule), ops), schedule, now);
  }
}
