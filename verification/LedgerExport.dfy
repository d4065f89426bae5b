/** Exports of a running ledger: the log only grows, so what an export lacks is what happened since. */
module LedgerExport {
  import opened Wrappers
  import opened Principals
  import opened Export
  import opened ExportTheorems
  import opened HonestExport
  import opened Reconciliation
  import L = Ledger
  import History
  import Evolution

  lemma {:induction false} SoundNumbers(l: L.Ledger)
    requires History.Sound(l)
    ensures Numbered(l.events)
  {
    assert History.Clocked(l);
  }

  /** An export of a reachable ledger verifies exactly when nothing in its log holds a raw line break. */
  lemma {:induction false} ReachableExportVerifies(r: Reader, render: Rendering, u: Unicode, l: L.Ledger, text: string)
    requires FaithfulReader(r) && Renders(r.p, render) && Evolution.Reachable(u, l)
    requires ExportText(r.p, r.sha, EventBodies(render, l.events)) == Ok(text)
    ensures VerifiesOk(r, text) <==> !AnyBodyBreaks(EventBodies(render, l.events))
  {
    Evolution.ReachableIsSound(u, l);
    SoundNumbers(l);
    LedgerExportVerifies(r, render, l.events, text);
  }

  lemma {:induction false} LogGrows(u: Unicode, l: L.Ledger, ops: seq<(L.Op, L.Clock)>)
    requires Evolution.Reachable(u, l)
    ensures l.events <= L.Run(l, u, ops).events && Numbered(L.Run(l, u, ops).events)
  {
    Evolution.ReachableIsSound(u, l);
    Evolution.RunEvolves(l, u, ops);
    SoundNumbers(L.Run(l, u, ops));
  }

  lemma {:induction false} StalePrefix(r: Reader, render: Rendering, before: seq<L.Event>, now: seq<L.Event>,
                                       text: string)
    requires FaithfulReader(r) && FaithfulKeys(r) && Renders(r.p, render) && Numbered(now) && before <= now
    requires ExportText(r.p, r.sha, EventBodies(render, before)) == Ok(text) && VerifiesOk(r, text)
    ensures Export.Reconcile(r, text, EventBodies(render, now))
         == Some(Verify(r, text).value.(records := |before|,
                                        violations := Missing(Listed(r, EventKeys(now[|before|..])))))
  {
    assert now[..|before|] == before;
    StaleExportMissesExactlyTheRest(r, render, now, |before|, text);
  }

  /** An export taken from a reachable ledger and verified, compared with the ledger after any further
      run: one missing_from_export per event of that run, listed by its printed key, and no other complaint. */
  lemma {:induction false} LaterLedgerMissesExactlyItsNewEvents(r: Reader, render: Rendering, u: Unicode, l: L.Ledger,
                                                                ops: seq<(L.Op, L.Clock)>, text: string)
    requires FaithfulReader(r) && FaithfulKeys(r) && Renders(r.p, render) && Evolution.Reachable(u, l)
    requires ExportText(r.p, r.sha, EventBodies(render, l.events)) == Ok(text) && VerifiesOk(r, text)
    ensures l.events <= L.Run(l, u, ops).events
    ensures var now := L.Run(l, u, ops).events;
            Export.Reconcile(r, text, EventBodies(render, now))
              == Some(Verify(r, text).value.(records := |l.events|,
                                             violations := Missing(Listed(r, EventKeys(now[|l.events|..])))))
  {
    LogGrows(u, l, ops);
    StalePrefix(r, render, l.events, L.Run(l, u, ops).events, text);
  }
}
