/** The retention schedule (core/retention.py): how long something is kept, decided by nothing but its
    arguments and a clock reading. */
module Retention {
  import opened Wrappers

  const DAY := 86400.0

  datatype RetentionClass = RetentionClass(name: string, minimumDays: real, rationale: string,
                                           maximumDays: Option<real>)

  datatype RetentionError = NegativePeriod | NoRationale | MaximumBelowMinimum | NoClasses | UnknownClass
      | NotYet(action: Action)

  datatype Action = Keep | Eligible | Overdue | Held

  datatype Decision = Decision(payloadId: string, action: Action, eligibleAt: real, dueAt: Option<real>)
  {
    predicate MayDestroy() {
      action.Eligible? || action.Overdue?
    }
  }

  /** The checks of a class's construction. */
  function MakeClass(name: string, minimumDays: real, rationale: string, maximumDays: Option<real>)
    : Result<RetentionClass, RetentionError>
  {
    if minimumDays < 0.0 then Err(NegativePeriod)
    else if rationale == "" then Err(NoRationale)
    else if maximumDays.Some? && maximumDays.value < minimumDays then Err(MaximumBelowMinimum)
    else Ok(RetentionClass(name, minimumDays, rationale, maximumDays))
  }

  predicate WellFormed(c: RetentionClass) {
    MakeClass(c.name, c.minimumDays, c.rationale, c.maximumDays).Ok?
  }

  /** The classes of a schedule; of two with one name the later one counts. */
  type Schedule = seq<RetentionClass>

  function ClassNamed(schedule: Schedule, name: string): Option<RetentionClass> {
    if schedule == [] then None
    else if schedule[|schedule| - 1].name == name then Some(schedule[|schedule| - 1])
    else ClassNamed(schedule[..|schedule| - 1], name)
  }

  function EligibleAt(c: RetentionClass, createdAt: real): real {
    createdAt + c.minimumDays * DAY
  }

  function DueAt(c: RetentionClass, createdAt: real): Option<real> {
    match c.maximumDays
    case None => None
    case Some(days) => Some(createdAt + days * DAY)
  }

  /** One payload, as a sweep is told of it. */
  datatype Item = Item(payloadId: string, retentionClass: string, createdAt: real, onHold: bool)

  function ActionAt(c: RetentionClass, createdAt: real, onHold: bool, now: real): Action {
    if onHold then Held
    else if now < EligibleAt(c, createdAt) then Keep
    else if DueAt(c, createdAt).Some? && now >= DueAt(c, createdAt).value then Overdue
    else Eligible
  }

  function Decide(schedule: Schedule, item: Item, now: real): Result<Decision, RetentionError> {
    match ClassNamed(schedule, item.retentionClass)
    case None => Err(UnknownClass)
    case Some(c) =>
      Ok(Decision(item.payloadId, ActionAt(c, item.createdAt, item.onHold, now), EligibleAt(c, item.createdAt),
                  DueAt(c, item.createdAt)))
  }

  /** Decisions for many payloads; one unknown class and there are none. */
  function Sweep(schedule: Schedule, items: seq<Item>, now: real): Result<seq<Decision>, RetentionError> {
    if items == [] then Ok([])
    else
      match Decide(schedule, items[0], now)
      case Err(e) => Err(e)
      case Ok(d) =>
        match Sweep(schedule, items[1..], now)
        case Err(e) => Err(e)
        case Ok(ds) => Ok([d] + ds)
  }

  function RequireDestroyable(schedule: Schedule, item: Item, now: real): Result<Decision, RetentionError> {
    match Decide(schedule, item, now)
    case Err(e) => Err(e)
    case Ok(d) => if d.MayDestroy() then Ok(d) else Err(NotYet(d.action))
  }

  /** A class is accepted exactly with a period that is not negative, a rationale, and a maximum, if it has one, that
      is not below the minimum. */
  lemma {:induction false} ClassAcceptedExactlyWhen(c: RetentionClass)
    ensures MakeClass(c.name, c.minimumDays, c.rationale, c.maximumDays)
         == if c.minimumDays < 0.0 then Err(NegativePeriod)
            else if |c.rationale| == 0 then Err(NoRationale)
            else if c.maximumDays.Some? && c.maximumDays.value < c.minimumDays then Err(MaximumBelowMinimum)
            else Ok(c)
  {
  }

  /** The k-th class is the one that counts under its name. */
  predicate CountsAs(schedule: Schedule, k: nat, name: string) {
    && k < |schedule| && schedule[k].name == name
    && forall j | k < j < |schedule| :: schedule[j].name != name
  }

  /** Of the classes with one name the last one counts, and a name no class has is unknown. */
  lemma {:induction false} LastClassCounts(schedule: Schedule, name: string)
    ensures ClassNamed(schedule, name).None? <==> forall k | 0 <= k < |schedule| :: schedule[k].name != name
    ensures forall k: nat | CountsAs(schedule, k, name) :: ClassNamed(schedule, name) == Some(schedule[k])
  {
    if schedule != [] {
      var n := |schedule| - 1;
      LastClassCounts(schedule[..n], name);
      assert forall k | 0 <= k < n :: schedule[..n][k] == schedule[k];
      forall k: nat | CountsAs(schedule, k, name) ensures ClassNamed(schedule, name) == Some(schedule[k]) {
        if k < n { assert CountsAs(schedule[..n], k, name); }
      }
    }
  }

  /** Destruction is permitted exactly for a known class, off hold, from the end of the minimum period on, which is
      counted in days of 86400 seconds. */
  lemma {:induction false} DestroyableExactlyWhen(schedule: Schedule, item: Item, now: real)
    ensures RequireDestroyable(schedule, item, now).Ok?
       <==> ClassNamed(schedule, item.retentionClass).Some? && !item.onHold
            && now >= item.createdAt + ClassNamed(schedule, item.retentionClass).value.minimumDays * 86400.0
  {
  }

  /** What is said of a payload: a hold comes first, then the minimum period, then the maximum. */
  lemma {:induction false} DecidedExactly(schedule: Schedule, item: Item, now: real)
    requires ClassNamed(schedule, item.retentionClass).Some?
    ensures var c := ClassNamed(schedule, item.retentionClass).value;
            var eligible := item.createdAt + c.minimumDays * 86400.0;
            var due := if c.maximumDays.Some? then Some(item.createdAt + c.maximumDays.value * 86400.0) else None;
            Decide(schedule, item, now)
              == Ok(Decision(item.payloadId,
                             if item.onHold then Held
                             else if now < eligible then Keep
                             else if due.Some? && due.value <= now then Overdue
                             else Eligible,
                             eligible, due))
  {
  }

  /** For a class whose construction was accepted, overdue means past the maximum and nothing else. */
  lemma {:induction false} OverdueExactlyWhen(c: RetentionClass, createdAt: real, onHold: bool, now: real)
    requires WellFormed(c)
    ensures ActionAt(c, createdAt, onHold, now).Overdue?
       <==> !onHold && c.maximumDays.Some? && now >= createdAt + c.maximumDays.value * 86400.0
  {
    if c.maximumDays.Some? {
      assert c.minimumDays * DAY <= c.maximumDays.value * DAY;
    }
  }

  /** What may be destroyed now may be destroyed at every later reading, as long as no hold is placed;
      and what is overdue was eligible before. */
  lemma {:induction false} DecisionsOnlyAdvance(schedule: Schedule, item: Item, now: real, later: real)
    requires ClassNamed(schedule, item.retentionClass).Some? && now <= later
    requires WellFormed(ClassNamed(schedule, item.retentionClass).value)
    ensures var (before, after) := (Decide(schedule, item, now).value, Decide(schedule, item, later).value);
            && (before.MayDestroy() ==> after.MayDestroy())
            && (before.action.Overdue? ==> after.action.Overdue?)
            && (before.action.Held? <==> after.action.Held?)
            && (before.action.Overdue? ==> before.eligibleAt <= before.dueAt.value <= now)
  {
    var c := ClassNamed(schedule, item.retentionClass).value;
    if c.maximumDays.Some? {
      assert c.minimumDays * DAY <= c.maximumDays.value * DAY;
    }
  }

  /** A sweep decides each payload as it would be decided alone, in the order given. */
  lemma {:induction false} SweepPointwise(schedule: Schedule, items: seq<Item>, now: real)
    ensures Sweep(schedule, items, now).Ok?
       <==> forall i | 0 <= i < |items| :: ClassNamed(schedule, items[i].retentionClass).Some?
    ensures Sweep(schedule, items, now).Ok? ==>
              var ds := Sweep(schedule, items, now).value;
              |ds| == |items| && forall i | 0 <= i < |items| :: Decide(schedule, items[i], now) == Ok(ds[i])
  {
    if items != [] {
      SweepPointwise(schedule, items[1..], now);
      if forall i | 0 <= i < |items| :: ClassNamed(schedule, items[i].retentionClass).Some? {
        assert forall i | 0 <= i < |items[1..]| :: items[1..][i] == items[i + 1];
      }
    }
  }
}
