/** What every reachable ledger satisfies: the event log alone tells each row's state and how it
    got there, separation of duty holds in the record, and the mark bounds every reading in the log.
    The readings that a row keeps (`created_at`, `approved_at`) are another matter: see module Readings. */
module History {
  import opened Wrappers
  import opened Principals
  import opened Ledger

  // ------------------------------------------------------------------ the state graph

  predicate Edge(a: State, b: State) {
    match a
    case CREATED => b.APPROVED? || b.REVOKED?
    case APPROVED => b.DISPATCHING? || b.REVOKED? || b.EXPIRED?
    case DISPATCHING => IsOutcome(b)
    case UNKNOWN => IsResolution(b)
    case _ => false
  }

  /** A path of the state graph that starts with creation. */
  predicate LegalPath(path: seq<State>) {
    && path != [] && path[0] == CREATED
    && forall i | 0 <= i < |path| - 1 :: Edge(path[i], path[i + 1])
  }

  /** States only a claimed lease leads to. */
  predicate Dispatched(s: State) {
    s.DISPATCHING? || s.SUCCEEDED? || s.FAILED? || s.UNKNOWN? || s.PERMANENTLY_UNRESOLVED?
  }

  function Occurrences(path: seq<State>, s: State): nat {
    if path == [] then 0
    else Occurrences(path[..|path| - 1], s) + (if path[|path| - 1] == s then 1 else 0)
  }

  /** At most four transitions after creation; a dispatched execution entered DISPATCHING once. */
  lemma {:induction false} PathFacts(path: seq<State>)
    requires LegalPath(path)
    ensures |path| <= 5
    ensures |path| <= (match path[|path| - 1]
                       case CREATED => 1
                       case APPROVED => 2
                       case DISPATCHING => 3
                       case UNKNOWN => 4
                       case EXPIRED => 3
                       case REVOKED => 3
                       case _ => 5)
    ensures Occurrences(path, DISPATCHING) == if Dispatched(path[|path| - 1]) then 1 else 0
  {
    var n := |path|;
    if n == 1 {
      assert path[..0] == [];
    } else {
      var shorter := path[..n - 1];
      PathFacts(shorter);
      assert Edge(path[n - 2], path[n - 1]);
      assert shorter[|shorter| - 1] == path[n - 2];
    }
  }

  // ------------------------------------------------------------------ reading the log

  /** The successive target states the log records for one execution. */
  function Trace(events: seq<Event>, id: string): seq<State> {
    if events == [] then []
    else
      var last := events[|events| - 1];
      Trace(events[..|events| - 1], id)
      + (if last.executionId == id && last.toState.Some? then [last.toState.value] else [])
  }

  function Count(events: seq<Event>, id: string, kind: Kind): nat {
    if events == [] then 0
    else
      var last := events[|events| - 1];
      Count(events[..|events| - 1], id, kind) + (if last.executionId == id && last.kind == kind then 1 else 0)
  }

  lemma {:induction false} Extend(events: seq<Event>, e: Event, id: string, kind: Kind)
    ensures Trace(events + [e], id)
            == Trace(events, id) + (if e.executionId == id && e.toState.Some? then [e.toState.value] else [])
    ensures Count(events + [e], id, kind)
            == Count(events, id, kind) + (if e.executionId == id && e.kind == kind then 1 else 0)
  {
    assert (events + [e])[..|events|] == events;
  }

  /** The kinds whose events carry a target state, and that state. */
  predicate EventShape(e: Event) {
    KindFits(e.kind, e.toState)
  }

  predicate KindFits(kind: Kind, toState: Option<State>) {
    && (kind.CreatedEvent? <==> toState == Some(CREATED))
    && (kind.ApprovedEvent? <==> toState == Some(APPROVED))
    && (kind.LeaseClaimed? <==> toState == Some(DISPATCHING))
  }

  lemma {:induction false} OccurrencesAppend(path: seq<State>, last: State, s: State)
    ensures Occurrences(path + [last], s) == Occurrences(path, s) + (if last == s then 1 else 0)
  {
    assert (path + [last])[..|path|] == path;
  }

  lemma {:induction false} ClaimsAreDispatches(events: seq<Event>, id: string)
    requires forall i | 0 <= i < |events| :: EventShape(events[i])
    ensures Count(events, id, LeaseClaimed) == Occurrences(Trace(events, id), DISPATCHING)
  {
    if events != [] {
      var shorter, e := events[..|events| - 1], events[|events| - 1];
      assert EventShape(e);
      ClaimsAreDispatches(shorter, id);
      if e.executionId == id && e.toState.Some? {
        OccurrencesAppend(Trace(shorter, id), e.toState.value, DISPATCHING);
      } else {
        assert Trace(events, id) == Trace(shorter, id);
      }
    }
  }

  /** The index of the event that wrote the p-th entry of a trace. */
  lemma {:induction false} Locate(events: seq<Event>, id: string, p: nat) returns (i: nat)
    requires p < |Trace(events, id)|
    ensures i < |events| && events[i].executionId == id && events[i].toState == Some(Trace(events, id)[p])
    ensures |Trace(events[..i], id)| == p
  {
    var n := |events|;
    var shorter := events[..n - 1];
    if p < |Trace(shorter, id)| {
      i := Locate(shorter, id, p);
      assert shorter[..i] == events[..i];
    } else {
      i := n - 1;
    }
  }

  lemma {:induction false} TraceGrows(events: seq<Event>, id: string, i: nat, j: nat)
    requires i <= j <= |events|
    ensures |Trace(events[..i], id)| <= |Trace(events[..j], id)|
    decreases j
  {
    if i < j {
      TraceGrows(events, id, i, j - 1);
      assert events[..j][..j - 1] == events[..j - 1];
    }
  }

  // ------------------------------------------------------------------ the invariant

  ghost predicate RowShape(row: Row) {
    && IsPrincipal(row.actorId)
    && (row.leaseId.Some? <==> row.expiresAt.Some?)
    && (row.state == CREATED ==> row.leaseId.None?)
    && (row.state == APPROVED || row.state == EXPIRED || Dispatched(row.state) ==> row.leaseId.Some?)
    && (Dispatched(row.state) <==> row.dispatcherId.Some?)
  }

  /** The detail of an approval names a principal other than the actor. */
  ghost predicate NamesAnother(detail: Detail, actor: string) {
    detail.Approval? && IsPrincipal(detail.approverId) && detail.approverId != actor
  }

  /** The log entry is well-formed, concerns a known execution, and an approval names
      somebody other than the actor of that execution. */
  ghost predicate EventSound(rows: map<string, Row>, e: Event) {
    && e.executionId in rows
    && EventShape(e)
    && (e.kind.ApprovedEvent? ==> NamesAnother(e.detail, rows[e.executionId].actorId))
  }

  ghost predicate Distinct(order: seq<string>) {
    forall i, j | 0 <= i < j < |order| :: order[i] != order[j]
  }

  ghost predicate Table(l: Ledger) {
    && Distinct(l.order)
    && (forall id :: id in l.rows <==> id in l.order)
    && (forall a, b | a in l.rows && b in l.rows && l.rows[a].leaseId.Some?
                      && l.rows[a].leaseId == l.rows[b].leaseId :: a == b)
  }

  ghost predicate Clocked(l: Ledger) {
    forall i | 0 <= i < |l.events| ::
      && l.events[i].sequence == i + 1
      && l.highWater.Some? && l.events[i].recordedAt <= l.highWater.value
  }

  ghost predicate RowSound(l: Ledger, id: string)
    requires id in l.rows
  {
    var path := Trace(l.events, id);
    RowShape(l.rows[id]) && LegalPath(path) && path[|path| - 1] == l.rows[id].state
  }

  ghost predicate Traced(l: Ledger) {
    && (forall id | id in l.rows :: RowSound(l, id))
    && (forall id | id !in l.rows :: Trace(l.events, id) == [])
  }

  ghost predicate Logged(l: Ledger) {
    forall i | 0 <= i < |l.events| :: EventSound(l.rows, l.events[i])
  }

  ghost predicate Sound(l: Ledger) {
    Table(l) && Clocked(l) && Traced(l) && Logged(l)
  }

  lemma {:induction false} FindsTheLease(rows: map<string, Row>, order: seq<string>, lease: string)
    ensures match RowByLease(rows, order, lease)
            case Some(id) => id in order && id in rows && rows[id].leaseId == Some(lease)
            case None => forall id | id in order && id in rows :: rows[id].leaseId != Some(lease)
  {
    if order != [] { FindsTheLease(rows, order[1..], lease); }
  }

  // ------------------------------------------------------------------ preservation, once per primitive

  /** The new rows and the one new event agree with each other. */
  ghost predicate StepAgrees(l: Ledger, m: Ledger, id: string) {
    && |m.events| == |l.events| + 1
    && m.events == l.events + [m.events[|l.events|]]
    && m.events[|l.events|].executionId == id
    && id in m.rows
    && (m.events[|l.events|].toState.Some? ==> m.events[|l.events|].toState == Some(m.rows[id].state))
    && (forall other | other in l.rows && other != id :: other in m.rows && m.rows[other] == l.rows[other])
    && (forall other | other in m.rows && other != id :: other in l.rows)
  }

  lemma {:induction false} StepExtendsTrace(l: Ledger, m: Ledger, id: string, other: string)
    requires StepAgrees(l, m, id)
    ensures Trace(m.events, other)
            == Trace(l.events, other)
               + (if other == id && m.events[|l.events|].toState.Some? then [m.rows[id].state] else [])
  {
    Extend(l.events, m.events[|l.events|], other, m.events[|l.events|].kind);
  }

  lemma {:induction false} LegalExtension(path: seq<State>, next: State)
    requires if path == [] then next == CREATED else LegalPath(path) && Edge(path[|path| - 1], next)
    ensures LegalPath(path + [next])
  {
  }

  lemma {:induction false} StepKeepsTraced(l: Ledger, m: Ledger, id: string)
    requires Traced(l) && StepAgrees(l, m, id) && RowShape(m.rows[id])
    requires m.events[|l.events|].toState.None? ==> id in l.rows && m.rows[id] == l.rows[id]
    requires m.events[|l.events|].toState.Some? ==>
               if id in l.rows then Edge(l.rows[id].state, m.rows[id].state) else m.rows[id].state == CREATED
    ensures Traced(m)
  {
    forall other | other in m.rows ensures RowSound(m, other) {
      StepExtendsTrace(l, m, id, other);
      if other in l.rows { assert RowSound(l, other); }
      if other == id && m.events[|l.events|].toState.Some? {
        LegalExtension(Trace(l.events, id), m.rows[id].state);
      } else {
        assert Trace(m.events, other) == Trace(l.events, other);
      }
    }
    forall other | other !in m.rows ensures Trace(m.events, other) == [] {
      StepExtendsTrace(l, m, id, other);
    }
  }

  lemma {:induction false} StepKeepsLogged(l: Ledger, m: Ledger, id: string)
    requires Logged(l) && StepAgrees(l, m, id) && EventSound(m.rows, m.events[|l.events|])
    requires id in l.rows ==> m.rows[id].actorId == l.rows[id].actorId
    ensures Logged(m)
  {
    forall i | 0 <= i < |m.events| ensures EventSound(m.rows, m.events[i]) {
      if i < |l.events| { assert EventSound(l.rows, l.events[i]); }
    }
  }

  lemma {:induction false} AppendKeepsClocked(l: Ledger, m: Ledger, id: string, kind: Kind, from: Option<State>,
                                              to: Option<State>, detail: Detail, now: real)
    requires Clocked(l) && m.events == Append(l, id, kind, from, to, detail, now).events
    requires m.highWater == Append(l, id, kind, from, to, detail, now).highWater
    ensures Clocked(m)
  {
    forall i | 0 <= i < |m.events|
      ensures m.events[i].sequence == i + 1 && m.highWater.Some? && m.events[i].recordedAt <= m.highWater.value
    {
      if i < |l.events| { assert m.events[i] == l.events[i]; }
    }
  }

  lemma {:induction false} ObserveKeepsSound(l: Ledger, now: real)
    requires Sound(l)
    ensures Sound(Observe(l, now))
  {
    var m := Observe(l, now);
    assert Traced(m) by {
      assert forall id | id in m.rows :: RowSound(l, id) && RowSound(m, id);
    }
    assert Logged(m) by {
      assert forall i | 0 <= i < |m.events| :: EventSound(l.rows, l.events[i]);
    }
    assert Table(m) by { assert Table(l); }
    assert Clocked(m) by { assert Clocked(l); }
  }

  lemma {:induction false} NoteKeepsSound(l: Ledger, id: string, kind: Kind, from: Option<State>, detail: Detail,
                                          now: real)
    requires Sound(l) && id in l.rows
    requires !kind.CreatedEvent? && !kind.ApprovedEvent? && !kind.LeaseClaimed?
    ensures Sound(Note(l, id, kind, from, detail, now))
  {
    var m := Note(l, id, kind, from, detail, now);
    assert RowSound(l, id);
    StepKeepsTraced(l, m, id);
    StepKeepsLogged(l, m, id);
    AppendKeepsClocked(l, m, id, kind, from, None, detail, now);
  }

  /** What a rewritten row may change, and how. */
  ghost predicate RowStep(row: Row, row': Row) {
    && row' == row.(state := row'.state, leaseId := row'.leaseId, expiresAt := row'.expiresAt,
                    approvedAt := row'.approvedAt, dispatcherId := row'.dispatcherId)
    && Edge(row.state, row'.state)
    && (row.state != CREATED ==> row'.leaseId == row.leaseId && row'.expiresAt == row.expiresAt)
    && RowShape(row')
  }

  lemma {:induction false} MoveKeepsTable(l: Ledger, m: Ledger, id: string)
    requires Table(l) && id in l.rows && m.order == l.order && id in m.rows && m.rows == l.rows[id := m.rows[id]]
    requires m.rows[id].leaseId.Some? ==>
               forall other | other in l.rows && other != id :: l.rows[other].leaseId != m.rows[id].leaseId
    ensures Table(m)
  {
  }

  lemma {:induction false} MoveAgrees(l: Ledger, id: string, row: Row, kind: Kind, from: State, detail: Detail,
                                      now: real)
    ensures StepAgrees(l, Move(l, id, row, kind, from, detail, now), id)
    ensures Move(l, id, row, kind, from, detail, now).rows == l.rows[id := row]
    ensures Move(l, id, row, kind, from, detail, now).order == l.order
    ensures Move(l, id, row, kind, from, detail, now).events[|l.events|].toState == Some(row.state)
  {
  }

  lemma {:induction false} MoveKeepsSound(l: Ledger, id: string, row: Row, kind: Kind, from: State, detail: Detail,
                                          now: real)
    requires Sound(l) && id in l.rows && RowStep(l.rows[id], row)
    requires row.leaseId.Some? ==>
               forall other | other in l.rows && other != id :: l.rows[other].leaseId != row.leaseId
    requires KindFits(kind, Some(row.state)) && (kind.ApprovedEvent? ==> NamesAnother(detail, row.actorId))
    ensures Sound(Move(l, id, row, kind, from, detail, now))
  {
    var m := Move(l, id, row, kind, from, detail, now);
    MoveAgrees(l, id, row, kind, from, detail, now);
    MoveKeepsTable(l, m, id);
    StepKeepsTraced(l, m, id);
    StepKeepsLogged(l, m, id);
    AppendKeepsClocked(l, m, id, kind, Some(from), Some(row.state), detail, now);
  }

  lemma {:induction false} InsertKeepsTable(l: Ledger, m: Ledger, id: string)
    requires Table(l) && id !in l.rows && m.order == l.order + [id] && id in m.rows
    requires m.rows == l.rows[id := m.rows[id]] && m.rows[id].leaseId.None?
    ensures Table(m)
  {
    assert id !in l.order;
  }

  lemma {:induction false} CreateKeepsSound(l: Ledger, u: Unicode, id: string, runId: string, actor: Argument,
                                            toolId: string, operation: string, scope: string, clock: Clock)
    requires StableOnAscii(u) && Sound(l)
    ensures Sound(Create(l, u, id, runId, actor, toolId, operation, scope, clock).0)
  {
    if NormalizePrincipal(u, actor).Ok? && id !in l.rows {
      NormalizeIsIdempotent(u, actor);
      var m := Create(l, u, id, runId, actor, toolId, operation, scope, clock).0;
      var e := m.events[|l.events|];
      InsertKeepsTable(l, m, id);
      StepKeepsTraced(l, m, id);
      StepKeepsLogged(l, m, id);
      AppendKeepsClocked(l, m, id, CreatedEvent, None, Some(CREATED), e.detail, clock(1));
    }
  }

  lemma {:induction false} ApproveKeepsSound(l: Ledger, u: Unicode, id: string, approver: Argument, scope: string,
                                             ttl: Ttl, lease: string, clock: Clock)
    requires StableOnAscii(u) && Sound(l)
    ensures Sound(Approve(l, u, id, approver, scope, ttl, lease, clock).0)
  {
    var (m, reply) := Approve(l, u, id, approver, scope, ttl, lease, clock);
    if reply.Ok? {
      NormalizeIsIdempotent(u, approver);
      FindsTheLease(l.rows, l.order, lease);
      assert RowSound(l, id);
      MoveKeepsSound(l, id, m.rows[id], ApprovedEvent, CREATED, m.events[|l.events|].detail, clock(2));
    }
  }

  lemma {:induction false} ClaimKeepsSound(l: Ledger, dispatcher: string, lease: string, scope: string, clock: Clock)
    requires Sound(l)
    ensures Sound(ClaimLease(l, dispatcher, lease, scope, clock).0)
  {
    var found := RowByLease(l.rows, l.order, lease);
    if found.Some? && found.value in l.rows {
      var id := found.value;
      var row := l.rows[id];
      if row.state != APPROVED || row.scopeDigest != scope {
        var m := ClaimLease(l, dispatcher, lease, scope, clock).0;
        NoteKeepsSound(l, id, ClaimRefused, Some(row.state), m.events[|l.events|].detail, clock(0));
      } else {
        ConsumeKeepsSound(l, id, dispatcher, lease, clock);
      }
    }
  }

  lemma {:induction false} ExpiryKeepsSound(l: Ledger, id: string, now: real)
    requires Sound(l) && id in l.rows && l.rows[id].state == APPROVED
    ensures Sound(Move(l, id, l.rows[id].(state := EXPIRED), ClaimRefused, APPROVED, ClaimRefusal(LeaseExpired), now))
  {
    assert RowSound(l, id);
    MoveKeepsSound(l, id, l.rows[id].(state := EXPIRED), ClaimRefused, APPROVED, ClaimRefusal(LeaseExpired), now);
  }

  lemma {:induction false} GrantKeepsSound(l: Ledger, id: string, dispatcher: string, lease: string, now: real)
    requires Sound(l) && id in l.rows && l.rows[id].state == APPROVED
    ensures Sound(Move(l, id, l.rows[id].(state := DISPATCHING, dispatcherId := Some(dispatcher)), LeaseClaimed,
                       APPROVED,
                       Claim(lease, dispatcher), now))
  {
    assert RowSound(l, id);
    MoveKeepsSound(l, id, l.rows[id].(state := DISPATCHING, dispatcherId := Some(dispatcher)), LeaseClaimed, APPROVED,
                   Claim(lease, dispatcher), now);
  }

  lemma {:induction false} ConsumeKeepsSound(l: Ledger, id: string, dispatcher: string, lease: string, clock: Clock)
    requires Sound(l) && id in l.rows && l.rows[id].state == APPROVED
    ensures Sound(ConsumeLease(l, id, dispatcher, lease, clock).0)
  {
    var now, row, seen := clock(0), l.rows[id], Observe(l, clock(0));
    ObserveKeepsSound(l, now);
    if l.highWater.Some? && now < l.highWater.value {
      NoteKeepsSound(seen, id, ClaimRefused, Some(APPROVED),
                     ClaimRefusal(ClockMovedBackwards(l.highWater.value, now)), clock(1));
    } else if row.expiresAt.Some? && now > row.expiresAt.value {
      ExpiryKeepsSound(seen, id, clock(1));
    } else {
      GrantKeepsSound(seen, id, dispatcher, lease, clock(1));
    }
  }

  lemma {:induction false} PlainMoveKeepsSound(l: Ledger, id: string, row: Row, kind: Kind, from: State, detail: Detail,
                                               now: real)
    requires Sound(l) && id in l.rows
    requires row == l.rows[id].(state := row.state) && Edge(l.rows[id].state, row.state)
    requires !row.state.APPROVED? && !row.state.DISPATCHING?
    requires !kind.CreatedEvent? && !kind.ApprovedEvent? && !kind.LeaseClaimed?
    ensures Sound(Move(l, id, row, kind, from, detail, now))
  {
    assert RowSound(l, id);
    MoveKeepsSound(l, id, row, kind, from, detail, now);
  }

  ghost function Rewritten(rows: map<string, Row>, ids: seq<string>): map<string, Row> {
    map id | id in rows :: if id in ids then rows[id].(state := UNKNOWN) else rows[id]
  }

  lemma {:induction false} RecoverRewrites(l: Ledger, ids: seq<string>, clock: Clock)
    requires forall id | id in ids :: id in l.rows
    ensures RecoverRows(l, ids, clock).order == l.order
    ensures RecoverRows(l, ids, clock).rows == Rewritten(l.rows, ids)
  {
    if ids != [] {
      var shorter, id := ids[..|ids| - 1], ids[|ids| - 1];
      assert forall x :: x in ids <==> x in shorter || x == id;
      RecoverRewrites(l, shorter, clock);
    }
  }

  lemma {:induction false} RecoverKeepsSound(l: Ledger, ids: seq<string>, clock: Clock)
    requires Sound(l) && Distinct(ids)
    requires forall id | id in ids :: id in l.rows && l.rows[id].state == DISPATCHING
    ensures Sound(RecoverRows(l, ids, clock))
  {
    if ids != [] {
      var shorter, id := ids[..|ids| - 1], ids[|ids| - 1];
      LastIsNew(ids);
      RecoverKeepsSound(l, shorter, clock);
      RecoverRewrites(l, shorter, clock);
      RecoverOneKeepsSound(RecoverRows(l, shorter, clock), id, clock(|ids| - 1));
    }
  }

  lemma {:induction false} LastIsNew(ids: seq<string>)
    requires ids != [] && Distinct(ids)
    ensures Distinct(ids[..|ids| - 1]) && ids[|ids| - 1] in ids && ids[|ids| - 1] !in ids[..|ids| - 1]
    ensures forall x | x in ids[..|ids| - 1] :: x in ids
  {
  }

  lemma {:induction false} RecoverOneKeepsSound(l: Ledger, id: string, now: real)
    requires Sound(l) && id in l.rows && l.rows[id].state == DISPATCHING
    ensures Sound(RecoverOne(l, id, now))
  {
    PlainMoveKeepsSound(l, id, l.rows[id].(state := UNKNOWN), RecoveredEvent, DISPATCHING,
                        Interruption, now);
  }

  lemma {:induction false} InterruptedIsDistinct(rows: map<string, Row>, order: seq<string>, dispatcher: string,
                                                 all: bool)
    requires Distinct(order)
    ensures Distinct(Interrupted(rows, order, dispatcher, all))
  {
    if order != [] {
      InterruptedIsDistinct(rows, order[1..], dispatcher, all);
      assert order[0] !in order[1..];
      var rest := Interrupted(rows, order[1..], dispatcher, all);
      assert order[0] !in rest;
    }
  }

  lemma {:induction false} RevokeKeepsSound(l: Ledger, u: Unicode, id: string, revoker: Argument, reason: string,
                                            clock: Clock)
    requires Sound(l)
    ensures Sound(Revoke(l, u, id, revoker, reason, clock).0)
  {
    var (m, reply) := Revoke(l, u, id, revoker, reason, clock);
    if reply == Ok(true) {
      PlainMoveKeepsSound(l, id, m.rows[id], RevokedEvent, APPROVED, m.events[|l.events|].detail, clock(0));
    }
  }

  lemma {:induction false} OutcomeKeepsSound(l: Ledger, id: string, state: State, evidence: Evidence, clock: Clock)
    requires Sound(l)
    ensures Sound(RecordOutcome(l, id, state, evidence, clock).0)
  {
    var (m, reply) := RecordOutcome(l, id, state, evidence, clock);
    if reply.Ok? {
      PlainMoveKeepsSound(l, id, m.rows[id], OutcomeEvent, DISPATCHING, m.events[|l.events|].detail, clock(0));
    }
  }

  lemma {:induction false} ReconcileKeepsSound(l: Ledger, u: Unicode, id: string, state: State, reconciler: Argument,
                            evidence: Evidence, clock: Clock)
    requires Sound(l)
    ensures Sound(Reconcile(l, u, id, state, reconciler, evidence, clock).0)
  {
    var (m, reply) := Reconcile(l, u, id, state, reconciler, evidence, clock);
    if reply.Ok? {
      PlainMoveKeepsSound(l, id, m.rows[id], ReconciledEvent, UNKNOWN, m.events[|l.events|].detail, clock(0));
    }
  }

  lemma {:induction false} SweepKeepsSound(l: Ledger, dispatcher: string, all: bool, clock: Clock)
    requires Sound(l)
    ensures Sound(RecoverInterrupted(l, dispatcher, all, clock).0)
  {
    InterruptedIsDistinct(l.rows, l.order, dispatcher, all);
    RecoverKeepsSound(l, Interrupted(l.rows, l.order, dispatcher, all), clock);
  }

  lemma {:induction false} ApplyKeepsSound(l: Ledger, u: Unicode, op: Op, clock: Clock)
    requires StableOnAscii(u) && Sound(l)
    ensures Sound(Apply(l, u, op, clock))
  {
    match op
    case CreateOp(id, runId, actor, toolId, operation, scope) =>
      CreateKeepsSound(l, u, id, runId, actor, toolId, operation, scope, clock);
    case ApproveOp(id, approver, scope, ttl, lease) =>
      ApproveKeepsSound(l, u, id, approver, scope, ttl, lease, clock);
    case RefusalOp(id, kind, fromState, detail) =>
      if id in l.rows && (kind.ApproveRefused? || kind.ReconcileRefused?) {
        NoteKeepsSound(l, id, kind, Some(fromState), detail, clock(0));
      }
    case ClaimOp(dispatcher, lease, scope) => ClaimKeepsSound(l, dispatcher, lease, scope, clock);
    case RevokeOp(id, revoker, reason) => RevokeKeepsSound(l, u, id, revoker, reason, clock);
    case OutcomeOp(id, state, evidence) => OutcomeKeepsSound(l, id, state, evidence, clock);
    case ReconcileOp(id, state, reconciler, evidence) =>
      ReconcileKeepsSound(l, u, id, state, reconciler, evidence, clock);
    case RecoverOp(dispatcher, all) => SweepKeepsSound(l, dispatcher, all, clock);
  }

  lemma {:induction false} RunIsSound(u: Unicode, ops: seq<(Op, Clock)>)
    requires StableOnAscii(u)
    ensures Sound(Run(EMPTY, u, ops))
  {
    if ops != [] {
      RunIsSound(u, ops[..|ops| - 1]);
      var last := ops[|ops| - 1];
      ApplyKeepsSound(Run(EMPTY, u, ops[..|ops| - 1]), u, last.0, last.1);
    }
  }
}
