/** How each arm of the ablation ends, to the last counter and log entry, for every list of faults and every number of
    attempts: the state it reports, what it charged, how often it tried and asked, and what it wrote down. */
module ArmOutcomes {
  import opened Wrappers
  import opened PaymentWorld
  import opened Arms

  // ------------------------------------------------------------------ faults and charges

  /** Nothing happened, and the caller does not know. */
  predicate NotBegun(f: Fault) {
    f == TimeoutBeforeEffect || f == CrashBeforeEffect
  }

  /** It happened, and the caller does not know. */
  predicate Lost(f: Fault) {
    f == TimeoutAfterEffect || f == CrashAfterEffect
  }

  predicate Unseen(f: Fault) {
    NotBegun(f) || Lost(f)
  }

  /** The faults are taken in order and the last one stands for all later attempts: to list it once more changes
      nothing. Without faults there is none. */
  lemma {:induction false} FaultsInOrder(sc: Scenario, attempt: nat)
    ensures sc.faults == [] ==> FaultFor(sc, attempt) == NoFault
    ensures attempt < |sc.faults| ==> FaultFor(sc, attempt) == sc.faults[attempt]
    ensures sc.faults != [] ==>
              FaultFor(sc.(faults := sc.faults + [sc.faults[|sc.faults| - 1]]), attempt) == FaultFor(sc, attempt)
  {
  }

  /** The k-th charge is the first with this key. */
  predicate IsFirstWith(charges: seq<Charge>, k: nat, key: string) {
    k < |charges| && charges[k].key == Some(key) && forall j | 0 <= j < k :: charges[j].key != Some(key)
  }

  lemma {:induction false} FirstWithKey(charges: seq<Charge>, key: string)
    ensures WithKey(charges, key) == None <==> forall j | 0 <= j < |charges| :: charges[j].key != Some(key)
    ensures forall k: nat | IsFirstWith(charges, k, key) :: WithKey(charges, key) == Some(charges[k])
  {
    if charges != [] {
      FirstWithKey(charges[1..], key);
      assert forall j | 1 <= j < |charges| :: charges[1..][j - 1] == charges[j];
      forall k: nat | IsFirstWith(charges, k, key) ensures WithKey(charges, key) == Some(charges[k]) {
        if k > 0 { assert IsFirstWith(charges[1..], k - 1, key); }
      }
    }
  }

  /** What the caller of a performed charge sees. */
  function Seen(fault: Fault, chargeId: nat): Response {
    if Lost(fault) then Interrupted(fault) else Accepted(chargeId)
  }

  /** What one call does to the world: nothing if it never began or was declined, nothing if a processor that knows the
      key has made that charge before, and else one charge, under the next number. The caller sees none of it if the
      call was interrupted. */
  lemma {:induction false} ChargesExactly(w: World, intentId: string, amount: int, fault: Fault, key: Option<string>)
    ensures var (v, response) := ChargeOnce(w, intentId, amount, fault, key);
            var made := Charge(w.nextId + 1, intentId, amount, key);
            var known := w.supportsIdempotency && key.Some?
                         && exists j | 0 <= j < |w.charges| :: w.charges[j].key == key;
            && (NotBegun(fault) ==> v == w && response == Interrupted(fault))
            && (fault == ProcessorError ==> v == w && response == Declined)
            && (!NotBegun(fault) && fault != ProcessorError && known ==>
                  && v == w
                  && forall k: nat | IsFirstWith(w.charges, k, key.value) ::
                       response == Seen(fault, w.charges[k].chargeId))
            && (!NotBegun(fault) && fault != ProcessorError && !known ==>
                  && v == w.(charges := w.charges + [made], nextId := w.nextId + 1)
                  && response == Seen(fault, w.nextId + 1))
  {
    if key.Some? {
      FirstWithKey(w.charges, key.value);
      assert (exists j | 0 <= j < |w.charges| :: w.charges[j].key == key) <==> WithKey(w.charges, key.value).Some?;
    }
  }

  /** How many charges of an intent there are. */
  function CountOf(charges: seq<Charge>, intentId: string): nat {
    if charges == [] then 0
    else CountOf(charges[..|charges| - 1], intentId) + if charges[|charges| - 1].intentId == intentId then 1 else 0
  }

  /** The k-th charge is the first of this intent. */
  predicate IsFirstOf(charges: seq<Charge>, k: nat, intentId: string) {
    k < |charges| && charges[k].intentId == intentId && forall j | 0 <= j < k :: charges[j].intentId != intentId
  }

  lemma {:induction false} OneChargeMore(charges: seq<Charge>, c: Charge, intentId: string)
    ensures OfIntent(charges + [c], intentId)
         == OfIntent(charges, intentId) + if c.intentId == intentId then [c] else []
  {
    var more := charges + [c];
    if charges == [] {
      assert more[0] == c && more[1..] == [];
    } else {
      assert more[0] == charges[0] && more[1..] == charges[1..] + [c];
      OneChargeMore(charges[1..], c, intentId);
    }
  }

  lemma {:induction false} CountsCharges(charges: seq<Charge>, intentId: string)
    ensures |OfIntent(charges, intentId)| == CountOf(charges, intentId)
    ensures OfIntent(charges, intentId) == [] <==> forall j | 0 <= j < |charges| :: charges[j].intentId != intentId
    ensures forall k: nat | IsFirstOf(charges, k, intentId) ::
              OfIntent(charges, intentId) != [] && OfIntent(charges, intentId)[0] == charges[k]
  {
    if charges != [] {
      var n := |charges| - 1;
      var shorter := charges[..n];
      CountsCharges(shorter, intentId);
      assert charges == shorter + [charges[n]];
      OneChargeMore(shorter, charges[n], intentId);
      assert forall j | 0 <= j < n :: shorter[j] == charges[j];
      forall k: nat | IsFirstOf(charges, k, intentId)
        ensures OfIntent(charges, intentId) != [] && OfIntent(charges, intentId)[0] == charges[k]
      {
        if k < n { assert IsFirstOf(shorter, k, intentId); }
      }
    }
  }

  /** A lookup, if the processor has one, finds the first charge of the intent and how many there are. */
  lemma {:induction false} LooksUpExactly(w: World, intentId: string)
    ensures ChargeCount(w, intentId) == CountOf(w.charges, intentId)
    ensures Lookup(w, intentId) == Unavailable <==> !w.supportsLookup
    ensures Lookup(w, intentId) == NotFound <==>
            w.supportsLookup && forall j | 0 <= j < |w.charges| :: w.charges[j].intentId != intentId
    ensures forall k: nat | w.supportsLookup && IsFirstOf(w.charges, k, intentId) ::
              Lookup(w, intentId) == Found(w.charges[k].chargeId, CountOf(w.charges, intentId))
  {
    CountsCharges(w.charges, intentId);
  }

  // ------------------------------------------------------------------ what is asked for

  /** What is asked for: the approved amount, or ten times that in a scenario that tampers with it. */
  function Asked(sc: Scenario, intent: Intent): int {
    if sc.mutateArguments then intent.amount * 10 else intent.amount
  }

  /** A call for another amount than the approved one counts as unauthorized. */
  function Unapproved(sc: Scenario, intent: Intent, calls: nat): nat {
    if Asked(sc, intent) != intent.amount then calls else 0
  }

  /** The key of an arm with a lease, which is that of the intent; the others have none. */
  function Key(arm: Arm, intent: Intent): Option<string> {
    if arm == C || arm == E || arm == F then Some("lease:" + intent.intentId) else None
  }

  /** The one charge of a run from a fresh world. */
  function OneCharge(arm: Arm, sc: Scenario, intent: Intent): seq<Charge> {
    [Charge(1, intent.intentId, Asked(sc, intent), Key(arm, intent))]
  }

  /** The arms that refuse any call but the approved one: it is refused at the first attempt and nothing is called. */
  lemma {:induction false} ChangedCallIsRefused(arm: Arm, sc: Scenario, intent: Intent, world: World)
    requires (arm == B || arm == E || arm == F) && Asked(sc, intent) != intent.amount && sc.attempts > 0
    ensures var q := RunArm(arm, sc, intent, world);
            q.world == world
            && q.result == Result(0, 0, 1, 0, 0, BlockedScope, [Blocked(BlockedScope, 0)])
  {
  }

  // ------------------------------------------------------------------ the arms that find out

  /** The first attempt of which something came, or the first beyond the last. */
  function FirstEffect(sc: Scenario, attempt: nat): (k: nat)
    ensures attempt <= k && (k == attempt || k <= sc.attempts)
    ensures k < sc.attempts ==> !NotBegun(FaultFor(sc, k))
    ensures forall i | attempt <= i < k :: NotBegun(FaultFor(sc, i))
    decreases sc.attempts - attempt
  {
    if attempt < sc.attempts && NotBegun(FaultFor(sc, attempt)) then FirstEffect(sc, attempt + 1) else attempt
  }

  /** What such an arm writes down of an attempt of which nothing came. */
  function Missed(arm: Arm, fault: Fault, attempt: nat): seq<Entry> {
    [InterruptedAt(fault, attempt), UnknownOutcome(fault, attempt),
     if arm == F then Postcondition(false) else Reconciled(NotFound)]
  }

  function Story(arm: Arm, sc: Scenario, from: nat, to: nat): seq<Entry>
    decreases to - from
  {
    if from >= to then [] else Missed(arm, FaultFor(sc, from), from) + Story(arm, sc, from + 1, to)
  }

  /** What it writes down of an attempt of which something came. */
  function Ending(arm: Arm, fault: Fault, attempt: nat, chargeId: nat): seq<Entry> {
    if fault == ProcessorError then [FailedAt(attempt)]
    else if Lost(fault) then
      [InterruptedAt(fault, attempt), UnknownOutcome(fault, attempt),
       if arm == F then Postcondition(true) else Reconciled(Found(chargeId, 1))]
    else [SucceededAt(chargeId, attempt)]
  }

  /** A run that has charged nothing and decided nothing yet. */
  predicate Open(arm: Arm, p: Progress) {
    p.world.charges == [] && p.result.finalState == Unset && (arm == E || arm == F ==> p.lease)
  }

  predicate Asks(arm: Arm, w: World) {
    arm == F || ((arm == D || arm == E) && w.supportsLookup)
  }

  /** Where a run of such an arm ends up from an open one, at whatever attempt. */
  function EndOf(arm: Arm, sc: Scenario, intent: Intent, p: Progress, attempt: nat): Arms.Result {
    var k := FirstEffect(sc, attempt);
    var last := FaultFor(sc, k);
    var calls := k - attempt + if k < sc.attempts then 1 else 0;
    var asked := k - attempt + if k < sc.attempts && Lost(last) then 1 else 0;
    p.result.(dispatches := p.result.dispatches + calls,
              unauthorized := p.result.unauthorized + Unapproved(sc, intent, calls),
              reconciliations := p.result.reconciliations + asked,
              finalState := if k >= sc.attempts then Exhausted
                            else if last == ProcessorError then Failed
                            else Succeeded,
              evidence := p.result.evidence + Story(arm, sc, attempt, k)
                          + if k < sc.attempts then Ending(arm, last, k, p.world.nextId + 1) else [])
  }

  function WorldAtEnd(arm: Arm, sc: Scenario, intent: Intent, w: World, attempt: nat): World {
    var k := FirstEffect(sc, attempt);
    if k < sc.attempts && FaultFor(sc, k) != ProcessorError
    then w.(charges := [Charge(w.nextId + 1, intent.intentId, Asked(sc, intent), Key(arm, intent))],
            nextId := w.nextId + 1)
    else w
  }

  /** An attempt of which nothing came: the arm finds that out and may try again. */
  lemma {:induction false} MissedAttempt(arm: Arm, sc: Scenario, intent: Intent, p: Progress, attempt: nat)
    requires Asks(arm, p.world) && Open(arm, p) && NotBegun(FaultFor(sc, attempt))
    requires (arm == E || arm == F) ==> Asked(sc, intent) == intent.amount
    ensures var (q, again) := Attempt(arm, sc, intent, p, attempt);
            && again && Open(arm, q) && q.world == p.world
            && q.result == Counted(arm, sc, intent, p.result, attempt)
  {
    assert OfIntent(p.world.charges, intent.intentId) == [];
  }

  /** The result and the world after an attempt of which something came. */
  function Concluded(arm: Arm, sc: Scenario, intent: Intent, p: Progress, attempt: nat): Arms.Result {
    var fault := FaultFor(sc, attempt);
    p.result.(dispatches := p.result.dispatches + 1,
              unauthorized := p.result.unauthorized + Unapproved(sc, intent, 1),
              reconciliations := p.result.reconciliations + if Lost(fault) then 1 else 0,
              finalState := if fault == ProcessorError then Failed else Succeeded,
              evidence := p.result.evidence + Ending(arm, fault, attempt, p.world.nextId + 1))
  }

  function Charged(arm: Arm, sc: Scenario, intent: Intent, w: World, attempt: nat): World {
    if FaultFor(sc, attempt) == ProcessorError then w
    else w.(charges := [Charge(w.nextId + 1, intent.intentId, Asked(sc, intent), Key(arm, intent))],
            nextId := w.nextId + 1)
  }

  lemma {:induction false} AnsweredAttempt(arm: Arm, sc: Scenario, intent: Intent, p: Progress, attempt: nat)
    requires Asks(arm, p.world) && Open(arm, p) && !NotBegun(FaultFor(sc, attempt)) && !Lost(FaultFor(sc, attempt))
    requires (arm == E || arm == F) ==> Asked(sc, intent) == intent.amount
    ensures var (q, again) := Attempt(arm, sc, intent, p, attempt);
            && !again && q.world == Charged(arm, sc, intent, p.world, attempt)
            && q.result == Concluded(arm, sc, intent, p, attempt)
  {
    ChargesExactly(p.world, intent.intentId, Asked(sc, intent), FaultFor(sc, attempt), Key(arm, intent));
  }

  lemma {:induction false} LostAttempt(arm: Arm, sc: Scenario, intent: Intent, p: Progress, attempt: nat)
    requires Asks(arm, p.world) && Open(arm, p) && Lost(FaultFor(sc, attempt))
    requires (arm == E || arm == F) ==> Asked(sc, intent) == intent.amount
    ensures var (q, again) := Attempt(arm, sc, intent, p, attempt);
            && !again && q.world == Charged(arm, sc, intent, p.world, attempt)
            && q.result == Concluded(arm, sc, intent, p, attempt)
  {
    LostStep(arm, sc, intent, p, attempt);
    OneOfIntent(Charge(p.world.nextId + 1, intent.intentId, Asked(sc, intent), Key(arm, intent)), intent.intentId);
    FoundOut(arm, WhenLost(arm, sc, intent, p, attempt), FaultFor(sc, attempt), intent.intentId, attempt);
  }

  /** Where an arm is when its attempt was lost and it has not asked yet. */
  function WhenLost(arm: Arm, sc: Scenario, intent: Intent, p: Progress, attempt: nat): Progress {
    Progress(Charged(arm, sc, intent, p.world, attempt), p.lease && !UsesLease(arm),
             Log(Sent(p.result, Asked(sc, intent) == intent.amount), InterruptedAt(FaultFor(sc, attempt), attempt)))
  }

  lemma {:induction false} LostStep(arm: Arm, sc: Scenario, intent: Intent, p: Progress, attempt: nat)
    requires Asks(arm, p.world) && Open(arm, p) && Lost(FaultFor(sc, attempt))
    requires (arm == E || arm == F) ==> Asked(sc, intent) == intent.amount
    ensures Attempt(arm, sc, intent, p, attempt)
         == OnInterrupted(arm, WhenLost(arm, sc, intent, p, attempt), FaultFor(sc, attempt), intent.intentId, attempt)
  {
    var made := Charge(p.world.nextId + 1, intent.intentId, Asked(sc, intent), Key(arm, intent));
    ChargesExactly(p.world, intent.intentId, Asked(sc, intent), FaultFor(sc, attempt), Key(arm, intent));
    assert p.world.charges + [made] == [made];
  }

  /** What an arm that can ask makes of an interruption when there is one charge. */
  lemma {:induction false} FoundOut(arm: Arm, p: Progress, fault: Fault, intentId: string, attempt: nat)
    requires Asks(arm, p.world) && OfIntent(p.world.charges, intentId) == p.world.charges && |p.world.charges| == 1
    ensures var (q, again) := OnInterrupted(arm, p, fault, intentId, attempt);
            && !again && q.world == p.world
            && q.result == p.result.(reconciliations := p.result.reconciliations + 1, finalState := Succeeded,
                                     evidence := p.result.evidence
                                       + [UnknownOutcome(fault, attempt),
                                          if arm == F then Postcondition(true)
                                          else Reconciled(Found(p.world.charges[0].chargeId, 1))])
  {
  }

  lemma {:induction false} ConcludesAtOnce(arm: Arm, sc: Scenario, intent: Intent, p: Progress, attempt: nat)
    requires attempt < sc.attempts && !NotBegun(FaultFor(sc, attempt))
    ensures EndOf(arm, sc, intent, p, attempt) == Concluded(arm, sc, intent, p, attempt)
    ensures WorldAtEnd(arm, sc, intent, p.world, attempt) == Charged(arm, sc, intent, p.world, attempt)
  {
    assert FirstEffect(sc, attempt) == attempt;
    assert p.result.evidence + Story(arm, sc, attempt, attempt) == p.result.evidence;
  }

  /** An attempt of which something came ends the run. */
  lemma {:induction false} LastAttempt(arm: Arm, sc: Scenario, intent: Intent, p: Progress, attempt: nat)
    requires Asks(arm, p.world) && Open(arm, p) && attempt < sc.attempts && !NotBegun(FaultFor(sc, attempt))
    requires (arm == E || arm == F) ==> Asked(sc, intent) == intent.amount
    ensures var (q, again) := Attempt(arm, sc, intent, p, attempt);
            && !again && q.world == WorldAtEnd(arm, sc, intent, p.world, attempt)
            && q.result == EndOf(arm, sc, intent, p, attempt)
  {
    ConcludesAtOnce(arm, sc, intent, p, attempt);
    if Lost(FaultFor(sc, attempt)) {
      LostAttempt(arm, sc, intent, p, attempt);
    } else {
      AnsweredAttempt(arm, sc, intent, p, attempt);
    }
  }

  /** The result once a missed attempt is counted. */
  function Counted(arm: Arm, sc: Scenario, intent: Intent, r: Arms.Result, attempt: nat): Arms.Result {
    r.(dispatches := r.dispatches + 1, unauthorized := r.unauthorized + Unapproved(sc, intent, 1),
       reconciliations := r.reconciliations + 1, evidence := r.evidence + Missed(arm, FaultFor(sc, attempt), attempt))
  }

  /** A missed attempt leaves the end of the run where it was. */
  lemma {:induction false} EndStays(arm: Arm, sc: Scenario, intent: Intent, p: Progress, q: Progress, attempt: nat)
    requires attempt < sc.attempts && NotBegun(FaultFor(sc, attempt))
    requires q.world == p.world && q.result == Counted(arm, sc, intent, p.result, attempt)
    ensures EndOf(arm, sc, intent, q, attempt + 1) == EndOf(arm, sc, intent, p, attempt)
    ensures WorldAtEnd(arm, sc, intent, q.world, attempt + 1) == WorldAtEnd(arm, sc, intent, p.world, attempt)
  {
    assert FirstEffect(sc, attempt) == FirstEffect(sc, attempt + 1);
    StoryGrows(arm, sc, attempt, FirstEffect(sc, attempt), p.result.evidence);
  }

  lemma {:induction false} OneOfIntent(c: Charge, intentId: string)
    requires c.intentId == intentId
    ensures OfIntent([c], intentId) == [c]
  {
    assert [c][1..] == [];
  }

  lemma {:induction false} StoryGrows(arm: Arm, sc: Scenario, from: nat, to: nat, before: seq<Entry>)
    requires from < to
    ensures before + Story(arm, sc, from, to)
         == (before + Missed(arm, FaultFor(sc, from), from)) + Story(arm, sc, from + 1, to)
  {
  }

  lemma {:induction false} RunEnds(arm: Arm, sc: Scenario, intent: Intent, p: Progress, attempt: nat)
    requires Asks(arm, p.world) && Open(arm, p) && (sc.attempts >= 0 ==> attempt <= sc.attempts)
    requires (arm == E || arm == F) ==> Asked(sc, intent) == intent.amount
    ensures var q := Loop(arm, sc, intent, p, attempt);
            && q.world == WorldAtEnd(arm, sc, intent, p.world, attempt)
            && q.result == EndOf(arm, sc, intent, p, attempt)
    decreases sc.attempts - attempt
  {
    if attempt < sc.attempts {
      if NotBegun(FaultFor(sc, attempt)) {
        MissedAttempt(arm, sc, intent, p, attempt);
        var q := Attempt(arm, sc, intent, p, attempt).0;
        RunEnds(arm, sc, intent, q, attempt + 1);
        EndStays(arm, sc, intent, p, q, attempt);
      } else {
        LastAttempt(arm, sc, intent, p, attempt);
      }
    } else {
      EndsExhausted(arm, sc, intent, p, attempt);
    }
  }

  lemma {:induction false} EndsExhausted(arm: Arm, sc: Scenario, intent: Intent, p: Progress, attempt: nat)
    requires attempt >= sc.attempts
    ensures EndOf(arm, sc, intent, p, attempt) == p.result.(finalState := Exhausted)
    ensures WorldAtEnd(arm, sc, intent, p.world, attempt) == p.world
  {
    assert FirstEffect(sc, attempt) == attempt;
    assert p.result.evidence + Story(arm, sc, attempt, attempt) + [] == p.result.evidence;
  }

  /** D, E and F, where they can ask, on a call they do not refuse: they try until something comes of an attempt and
      stop there. Each attempt that never began costs one call and one question and leaves its three entries; one that
      was lost is found, one that was declined ends in FAILED, and any other in SUCCEEDED; and if nothing comes of any
      attempt, the arm is EXHAUSTED and has charged nothing. */
  lemma {:induction false} FindingOutEndsExactly(arm: Arm, sc: Scenario, intent: Intent)
    requires Asks(arm, Fresh(sc)) && ((arm == E || arm == F) ==> Asked(sc, intent) == intent.amount)
    ensures var q := RunArm(arm, sc, intent, Fresh(sc));
            var k := FirstEffect(sc, 0);
            var last := FaultFor(sc, k);
            if k >= sc.attempts then
              && q.world == Fresh(sc)
              && q.result == Result(k, Unapproved(sc, intent, k), 0, 0, k, Exhausted, Story(arm, sc, 0, k))
            else
              && q.world.charges == (if last == ProcessorError then [] else OneCharge(arm, sc, intent))
              && q.result == Result(k + 1, Unapproved(sc, intent, k + 1), 0, 0, k + if Lost(last) then 1 else 0,
                                    if last == ProcessorError then Failed else Succeeded,
                                    Story(arm, sc, 0, k) + Ending(arm, last, k, 1))
  {
    var p := Progress(Fresh(sc), true, NO_RESULT);
    RunEnds(arm, sc, intent, p, 0);
    EndFromTheStart(arm, sc, intent, p);
  }

  lemma {:induction false} EndFromTheStart(arm: Arm, sc: Scenario, intent: Intent, p: Progress)
    requires p.result == NO_RESULT && p.world.nextId == 0
    ensures var k := FirstEffect(sc, 0);
            var last := FaultFor(sc, k);
            EndOf(arm, sc, intent, p, 0)
              == if k >= sc.attempts then
                   Result(k, Unapproved(sc, intent, k), 0, 0, k, Exhausted, Story(arm, sc, 0, k))
                 else
                   Result(k + 1, Unapproved(sc, intent, k + 1), 0, 0, k + if Lost(last) then 1 else 0,
                          if last == ProcessorError then Failed else Succeeded,
                          Story(arm, sc, 0, k) + Ending(arm, last, k, 1))
  {
    var story := Story(arm, sc, 0, FirstEffect(sc, 0));
    assert [] + story == story && story + [] == story;
  }

  /** D and E without a lookup: the first attempt decides. If it was interrupted the arm is PERMANENTLY_UNRESOLVED,
      whether it charged or not, and does not try again. */
  lemma {:induction false} NobodyToAsk(arm: Arm, sc: Scenario, intent: Intent)
    requires (arm == D || arm == E) && !sc.supportsLookup && sc.attempts > 0
    requires arm == E ==> Asked(sc, intent) == intent.amount
    ensures var q, first := RunArm(arm, sc, intent, Fresh(sc)), FaultFor(sc, 0);
            && q.world.charges
               == (if NotBegun(first) || first == ProcessorError then [] else OneCharge(arm, sc, intent))
            && q.result == Result(1, Unapproved(sc, intent, 1), 0, 0, 0,
                                  if NotBegun(first) || Lost(first) then PermanentlyUnresolved
                                  else if first == ProcessorError then Failed
                                  else Succeeded,
                                  if NotBegun(first) || Lost(first) then
                                    [InterruptedAt(first, 0), UnknownOutcome(first, 0), ReconcileFailed(0)]
                                  else if first == ProcessorError then [FailedAt(0)]
                                  else [SucceededAt(1, 0)])
  {
    ChargesExactly(Fresh(sc), intent.intentId, Asked(sc, intent), FaultFor(sc, 0), Key(arm, intent));
  }

  /** C: its lease is good for one attempt. */
  lemma {:induction false} LeaseAloneEndsExactly(sc: Scenario, intent: Intent)
    requires sc.attempts > 0
    ensures var q, first := RunArm(C, sc, intent, Fresh(sc)), FaultFor(sc, 0);
            var unseen := NotBegun(first) || Lost(first);
            && q.world.charges == (if NotBegun(first) || first == ProcessorError then [] else OneCharge(C, sc, intent))
            && q.result == Result(1, Unapproved(sc, intent, 1), 0, if unseen then 1 else 0, 0,
                                  if first == ProcessorError then Failed
                                  else if !unseen then Succeeded
                                  else if sc.attempts == 1 then Exhausted
                                  else BlockedLease,
                                  if first == ProcessorError then [FailedAt(0)]
                                  else if !unseen then [SucceededAt(1, 0)]
                                  else if sc.attempts == 1 then [InterruptedAt(first, 0)]
                                  else [InterruptedAt(first, 0), Blocked(BlockedLease, 1)])
  {
    ChargesExactly(Fresh(sc), intent.intentId, Asked(sc, intent), FaultFor(sc, 0), Key(C, intent));
    var p := Progress(Fresh(sc), true, NO_RESULT);
    var (q, again) := Attempt(C, sc, intent, p, 0);
    if again {
      assert Loop(C, sc, intent, p, 0) == Loop(C, sc, intent, q, 1);
      if sc.attempts > 1 { assert !Attempt(C, sc, intent, q, 1).1; }
    }
  }

  // ------------------------------------------------------------------ the arms that just try again

  /** The first attempt whose answer is seen, or the first beyond the last. */
  function FirstSeen(sc: Scenario, attempt: nat): (k: nat)
    ensures attempt <= k && (k == attempt || k <= sc.attempts)
    ensures k < sc.attempts ==> !Unseen(FaultFor(sc, k))
    ensures forall i | attempt <= i < k :: Unseen(FaultFor(sc, i))
    decreases sc.attempts - attempt
  {
    if attempt < sc.attempts && Unseen(FaultFor(sc, attempt)) then FirstSeen(sc, attempt + 1) else attempt
  }

  /** One charge for each attempt that was lost. */
  function LostCharges(sc: Scenario, intent: Intent, from: nat, to: nat, nextId: nat): seq<Charge>
    decreases to - from
  {
    if from >= to then []
    else if Lost(FaultFor(sc, from)) then
      [Charge(nextId + 1, intent.intentId, Asked(sc, intent), None)]
      + LostCharges(sc, intent, from + 1, to, nextId + 1)
    else LostCharges(sc, intent, from + 1, to, nextId)
  }

  function Interruptions(sc: Scenario, from: nat, to: nat): seq<Entry>
    decreases to - from
  {
    if from >= to then [] else [InterruptedAt(FaultFor(sc, from), from)] + Interruptions(sc, from + 1, to)
  }

  function RetriedResult(sc: Scenario, intent: Intent, p: Progress, attempt: nat): Arms.Result {
    var k := FirstSeen(sc, attempt);
    var calls := k - attempt + if k < sc.attempts then 1 else 0;
    var lost := |LostCharges(sc, intent, attempt, k, p.world.nextId)|;
    p.result.(dispatches := p.result.dispatches + calls,
              unauthorized := p.result.unauthorized + Unapproved(sc, intent, calls),
              retries := p.result.retries + (k - attempt),
              finalState := if k >= sc.attempts then Exhausted
                            else if FaultFor(sc, k) == ProcessorError then Failed
                            else Succeeded,
              evidence := p.result.evidence + Interruptions(sc, attempt, k)
                          + if k >= sc.attempts then []
                            else if FaultFor(sc, k) == ProcessorError then [FailedAt(k)]
                            else [SucceededAt(p.world.nextId + lost + 1, k)])
  }

  function RetriedCharges(sc: Scenario, intent: Intent, p: Progress, attempt: nat): seq<Charge> {
    var k := FirstSeen(sc, attempt);
    var lost := LostCharges(sc, intent, attempt, k, p.world.nextId);
    p.world.charges + lost
    + if k < sc.attempts && FaultFor(sc, k) != ProcessorError
      then [Charge(p.world.nextId + |lost| + 1, intent.intentId, Asked(sc, intent), None)]
      else []
  }

  /** An attempt whose answer is not seen. */
  lemma {:induction false} UnseenAttempt(sc: Scenario, intent: Intent, p: Progress, attempt: nat)
    requires NotBegun(FaultFor(sc, attempt)) || Lost(FaultFor(sc, attempt))
    ensures var (q, again) := Attempt(A, sc, intent, p, attempt);
            var made := Charge(p.world.nextId + 1, intent.intentId, Asked(sc, intent), None);
            && again
            && q.world == (if Lost(FaultFor(sc, attempt))
                           then p.world.(charges := p.world.charges + [made], nextId := p.world.nextId + 1)
                           else p.world)
            && q.result == p.result.(dispatches := p.result.dispatches + 1,
                                     unauthorized := p.result.unauthorized + Unapproved(sc, intent, 1),
                                     retries := p.result.retries + 1,
                                     evidence := p.result.evidence + [InterruptedAt(FaultFor(sc, attempt), attempt)])
  {
    ChargesExactly(p.world, intent.intentId, Asked(sc, intent), FaultFor(sc, attempt), None);
  }

  /** An attempt whose answer is seen. */
  lemma {:induction false} SeenAttempt(sc: Scenario, intent: Intent, p: Progress, attempt: nat)
    requires attempt < sc.attempts && !NotBegun(FaultFor(sc, attempt)) && !Lost(FaultFor(sc, attempt))
    ensures var (q, again) := Attempt(A, sc, intent, p, attempt);
            && !again && q.world.charges == RetriedCharges(sc, intent, p, attempt)
            && q.result == RetriedResult(sc, intent, p, attempt)
  {
    ChargesExactly(p.world, intent.intentId, Asked(sc, intent), FaultFor(sc, attempt), None);
    assert LostCharges(sc, intent, attempt, attempt, p.world.nextId) == [];
    assert Interruptions(sc, attempt, attempt) == [];
  }

  lemma {:induction false} RetriedStep(sc: Scenario, intent: Intent, p: Progress, q: Progress, attempt: nat)
    requires attempt < sc.attempts && (NotBegun(FaultFor(sc, attempt)) || Lost(FaultFor(sc, attempt)))
    requires (q, true) == Attempt(A, sc, intent, p, attempt)
    ensures RetriedCharges(sc, intent, q, attempt + 1) == RetriedCharges(sc, intent, p, attempt)
    ensures RetriedResult(sc, intent, q, attempt + 1) == RetriedResult(sc, intent, p, attempt)
  {
    UnseenAttempt(sc, intent, p, attempt);
    var k := FirstSeen(sc, attempt);
    assert k == FirstSeen(sc, attempt + 1);
    InterruptionsGrow(sc, attempt, k, p.result.evidence);
    LostGrow(sc, intent, attempt, k, p.world.nextId, p.world.charges);
  }

  lemma {:induction false} InterruptionsGrow(sc: Scenario, from: nat, to: nat, before: seq<Entry>)
    requires from < to
    ensures before + Interruptions(sc, from, to)
         == (before + [InterruptedAt(FaultFor(sc, from), from)]) + Interruptions(sc, from + 1, to)
  {
  }

  lemma {:induction false} LostGrow(sc: Scenario, intent: Intent, from: nat, to: nat, nextId: nat,
                                    before: seq<Charge>)
    requires from < to
    ensures var made := Charge(nextId + 1, intent.intentId, Asked(sc, intent), None);
            var lost := LostCharges(sc, intent, from, to, nextId);
            if Lost(FaultFor(sc, from)) then
              && before + lost == (before + [made]) + LostCharges(sc, intent, from + 1, to, nextId + 1)
              && |lost| == 1 + |LostCharges(sc, intent, from + 1, to, nextId + 1)|
            else lost == LostCharges(sc, intent, from + 1, to, nextId)
  {
  }

  lemma {:induction false} RetryingRun(sc: Scenario, intent: Intent, p: Progress, attempt: nat)
    requires p.result.finalState == Unset
    ensures var q := Loop(A, sc, intent, p, attempt);
            && q.world.charges == RetriedCharges(sc, intent, p, attempt)
            && q.result == RetriedResult(sc, intent, p, attempt)
    decreases sc.attempts - attempt
  {
    if attempt >= sc.attempts {
      assert LostCharges(sc, intent, attempt, attempt, p.world.nextId) == [];
      assert Interruptions(sc, attempt, attempt) == [];
    } else if NotBegun(FaultFor(sc, attempt)) || Lost(FaultFor(sc, attempt)) {
      UnseenAttempt(sc, intent, p, attempt);
      var q := Attempt(A, sc, intent, p, attempt).0;
      RetryingRun(sc, intent, q, attempt + 1);
      RetriedStep(sc, intent, p, q, attempt);
    } else {
      SeenAttempt(sc, intent, p, attempt);
    }
  }

  /** A, from any world: it tries until it sees an answer, with one charge for every attempt that was lost on the way
      and one for the attempt it sees, unless that is declined. */
  lemma {:induction false} RetryingEndsExactly(sc: Scenario, intent: Intent, world: World)
    ensures var q := RunArm(A, sc, intent, world);
            var k := FirstSeen(sc, 0);
            var lost := LostCharges(sc, intent, 0, k, world.nextId);
            var paid := k < sc.attempts && FaultFor(sc, k) != ProcessorError;
            var calls := if k < sc.attempts then k + 1 else k;
            && q.world.charges
               == world.charges + lost
                  + (if paid then [Charge(world.nextId + |lost| + 1, intent.intentId, Asked(sc, intent), None)] else [])
            && q.result
               == Result(calls, Unapproved(sc, intent, calls), 0, k, 0,
                         if k >= sc.attempts then Exhausted else if paid then Succeeded else Failed,
                         Interruptions(sc, 0, k)
                         + if k >= sc.attempts then []
                           else if paid then [SucceededAt(world.nextId + |lost| + 1, k)]
                           else [FailedAt(k)])
  {
    var p := Progress(world, true, NO_RESULT);
    RetryingRun(sc, intent, p, 0);
    assert [] + Interruptions(sc, 0, FirstSeen(sc, 0)) == Interruptions(sc, 0, FirstSeen(sc, 0));
  }
}
