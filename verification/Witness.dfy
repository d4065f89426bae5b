/** The monotone witness (core/witness.py): a counter per log that only goes up. */
module Witness {
  import opened Wrappers

  datatype Published = Published(logId: string, sequence: int, digest: string)

  /** The highest sequence recorded for a log. */
  function Latest(entries: seq<Published>, logId: string): Option<int> {
    if entries == [] then None
    else
      var e := entries[|entries| - 1];
      var before := Latest(entries[..|entries| - 1], logId);
      if e.logId == logId && (before.None? || before.value < e.sequence) then Some(e.sequence) else before
  }

  /** The digest of the first entry recorded at a sequence. */
  function DigestAt(entries: seq<Published>, logId: string, sequence: int): Option<string> {
    if entries == [] then None
    else if entries[0].logId == logId && entries[0].sequence == sequence then Some(entries[0].digest)
    else DigestAt(entries[1..], logId, sequence)
  }

  /** Within a log, sequences strictly rise. */
  ghost predicate Rising(entries: seq<Published>) {
    forall i, j | 0 <= i < j < |entries| && entries[i].logId == entries[j].logId ::
      entries[i].sequence < entries[j].sequence
  }

  /** The latest is recorded, and nothing recorded for the log is above it. */
  lemma {:induction false} LatestIsGreatest(entries: seq<Published>, logId: string)
    ensures forall i | 0 <= i < |entries| && entries[i].logId == logId ::
              Latest(entries, logId).Some? && entries[i].sequence <= Latest(entries, logId).value
    ensures Latest(entries, logId).Some? ==>
              exists i | 0 <= i < |entries| ::
                entries[i].logId == logId && entries[i].sequence == Latest(entries, logId).value
  {
    if entries != [] {
      var shorter := entries[..|entries| - 1];
      LatestIsGreatest(shorter, logId);
      assert forall i | 0 <= i < |shorter| :: entries[i] == shorter[i];
    }
  }

  lemma {:induction false} DigestFound(entries: seq<Published>, logId: string, sequence: int)
    ensures match DigestAt(entries, logId, sequence)
            case Some(d) => Published(logId, sequence, d) in entries
            case None => forall i | 0 <= i < |entries| :: entries[i].logId != logId || entries[i].sequence != sequence
  {
    if entries != [] && !(entries[0].logId == logId && entries[0].sequence == sequence) {
      DigestFound(entries[1..], logId, sequence);
    }
  }

  /** In a rising record an entry is found at its own sequence. */
  lemma {:induction false} RisingDigest(entries: seq<Published>, k: nat)
    requires Rising(entries) && k < |entries|
    ensures DigestAt(entries, entries[k].logId, entries[k].sequence) == Some(entries[k].digest)
  {
    DigestFound(entries, entries[k].logId, entries[k].sequence);
    var d := DigestAt(entries, entries[k].logId, entries[k].sequence);
    if d.Some? {
      var i :| 0 <= i < |entries| && entries[i] == Published(entries[k].logId, entries[k].sequence, d.value);
      assert i == k;
    }
  }

  lemma {:induction false} DigestBeyond(entries: seq<Published>, e: Published, logId: string, sequence: int)
    ensures DigestAt(entries + [e], logId, sequence)
         == if DigestAt(entries, logId, sequence).Some? then DigestAt(entries, logId, sequence)
            else if e.logId == logId && e.sequence == sequence then Some(e.digest) else None
  {
    if entries == [] {
      assert entries + [e] == [e];
    } else {
      assert (entries + [e])[0] == entries[0] && (entries + [e])[1..] == entries[1..] + [e];
      DigestBeyond(entries[1..], e, logId, sequence);
    }
  }

  lemma {:induction false} LatestAfter(entries: seq<Published>, e: Published, logId: string)
    ensures Latest(entries + [e], logId)
         == if e.logId == logId && (Latest(entries, logId).None? || Latest(entries, logId).value < e.sequence)
            then Some(e.sequence)
            else Latest(entries, logId)
  {
    assert (entries + [e])[..|entries|] == entries;
  }

  /** What is recorded after any sequence of attempts to publish. */
  function Recorded(entries: seq<Published>, attempts: seq<Published>): seq<Published> {
    if attempts == [] then entries
    else
      var done := Recorded(entries, attempts[..|attempts| - 1]);
      var e := attempts[|attempts| - 1];
      if Advances(done, e) then done + [e] else done
  }

  predicate Advances(entries: seq<Published>, e: Published) {
    Latest(entries, e.logId).None? || e.sequence > Latest(entries, e.logId).value
  }

  /** A publication is accepted exactly if it is above everything published of its log. */
  lemma {:induction false} AdvancesExactlyWhen(entries: seq<Published>, e: Published)
    ensures Advances(entries, e)
       <==> forall k | 0 <= k < |entries| && entries[k].logId == e.logId :: entries[k].sequence < e.sequence
  {
    LatestIsGreatest(entries, e.logId);
  }

  lemma {:induction false} PublishKeepsRising(entries: seq<Published>, e: Published)
    requires Rising(entries) && Advances(entries, e)
    ensures Rising(entries + [e])
  {
    LatestIsGreatest(entries, e.logId);
  }

  ghost predicate NoFall(before: Option<int>, after: Option<int>) {
    before.Some? ==> after.Some? && before.value <= after.value
  }

  /** Whatever is offered to it, the witness keeps what it recorded, stays rising, and the latest
      sequence of no log falls. */
  lemma {:induction false} LatestNeverFalls(entries: seq<Published>, attempts: seq<Published>, logId: string)
    requires Rising(entries)
    ensures Rising(Recorded(entries, attempts)) && entries <= Recorded(entries, attempts)
    ensures NoFall(Latest(entries, logId), Latest(Recorded(entries, attempts), logId))
  {
    if attempts != [] {
      var n := |attempts| - 1;
      LatestNeverFalls(entries, attempts[..n], logId);
      var done := Recorded(entries, attempts[..n]);
      if Advances(done, attempts[n]) {
        PublishKeepsRising(done, attempts[n]);
        LatestAfter(done, attempts[n], logId);
      }
    }
  }

  /** The witness in a local file: its entries, in the order in which they were accepted. */
  class FileWitness {
    var entries: seq<Published>

    ghost predicate Valid()
      reads this
    {
      Rising(entries)
    }

    constructor ()
      ensures Valid() && entries == []
    {
      entries := [];
    }

    /** Refuses a sequence at or below the latest of its log; otherwise the entry is appended. */
    method Publish(logId: string, sequence: int, digest: string) returns (accepted: bool)
      requires Valid()
      modifies this
      ensures Valid()
      ensures entries == Recorded(old(entries), [Published(logId, sequence, digest)])
      ensures accepted <==> Advances(old(entries), Published(logId, sequence, digest))
      ensures entries == if accepted then old(entries) + [Published(logId, sequence, digest)] else old(entries)
    {
      var e := Published(logId, sequence, digest);
      assert [e][..0] == [];
      assert Recorded(entries, [e][..0]) == entries;
      var latest := LatestSequence(logId);
      if latest.Some? && sequence <= latest.value {
        return false;
      }
      PublishKeepsRising(entries, e);
      entries := entries + [e];
      return true;
    }

    /** The greatest of the sequences recorded for the log, if any. */
    method LatestSequence(logId: string) returns (latest: Option<int>)
      ensures latest == Latest(entries, logId)
    {
      latest := None;
      for i := 0 to |entries|
        invariant latest == Latest(entries[..i], logId)
      {
        assert entries[..i + 1][..i] == entries[..i];
        if entries[i].logId == logId && (latest.None? || latest.value < entries[i].sequence) {
          latest := Some(entries[i].sequence);
        }
      }
      assert entries[..|entries|] == entries;
    }

    method DigestAtSequence(logId: string, sequence: int) returns (digest: Option<string>)
      ensures digest == DigestAt(entries, logId, sequence)
    {
      for i := 0 to |entries|
        invariant DigestAt(entries, logId, sequence) == DigestAt(entries[i..], logId, sequence)
      {
        if entries[i].logId == logId && entries[i].sequence == sequence {
          return Some(entries[i].digest);
        }
        assert entries[i..][1..] == entries[i + 1..];
      }
      return None;
    }
  }

  function Base(entries: seq<Published>, logId: string): int {
    match Latest(entries, logId)
    case Some(n) => n
    case None => 0
  }

  lemma {:induction false} FirstRound(entries: seq<Published>, logId: string, digest: string)
    requires Rising(entries)
    ensures var base := Base(entries, logId);
            var e := Published(logId, base + 1, digest);
            && Advances(entries, e) && Rising(entries + [e])
            && Latest(entries + [e], logId) == Some(base + 1)
            && DigestAt(entries + [e], logId, base + 1) == Some(digest)
  {
    var base := Base(entries, logId);
    var e := Published(logId, base + 1, digest);
    LatestIsGreatest(entries, logId);
    PublishKeepsRising(entries, e);
    LatestAfter(entries, e, logId);
    RisingDigest(entries + [e], |entries|);
  }

  lemma {:induction false} NothingAbove(entries: seq<Published>, logId: string, sequence: int)
    requires Latest(entries, logId).Some? && sequence > Latest(entries, logId).value
    ensures DigestAt(entries, logId, sequence) == None
  {
    LatestIsGreatest(entries, logId);
    DigestFound(entries, logId, sequence);
  }

  /** One accepted publication, and what `latest_sequence` says of it. */
  method AcceptsNext(w: FileWitness, logId: string, base: int, digest: string) returns (conforms: bool)
    requires w.Valid() && Base(w.entries, logId) == base
    modifies w
    ensures w.Valid() && conforms
    ensures w.entries == old(w.entries) + [Published(logId, base + 1, digest)]
    ensures Latest(w.entries, logId) == Some(base + 1)
    ensures DigestAt(w.entries, logId, base + 1) == Some(digest)
  {
    FirstRound(w.entries, logId, digest);
    var accepted := w.Publish(logId, base + 1, digest);
    var latest := w.LatestSequence(logId);
    return accepted && latest == Some(base + 1);
  }

  /** The loop over two sequences that must not be accepted again. */
  method RefusesRepeats(w: FileWitness, logId: string, base: int) returns (conforms: bool)
    requires w.Valid() && Latest(w.entries, logId) == Some(base + 1)
    modifies w
    ensures w.Valid() && conforms && w.entries == old(w.entries)
  {
    var repeats := [base + 1, base];
    for i := 0 to |repeats|
      invariant w.Valid() && w.entries == old(w.entries)
    {
      var accepted := w.Publish(logId, repeats[i], "should-not-be-recorded");
      if accepted { return false; }
    }
    return true;
  }

  lemma {:induction false} OtherLog(entries: seq<Published>, one: Published, two: Published, logId: string)
    requires one.logId != logId && two.logId != logId
    ensures Latest(entries + [one] + [two], logId) == Latest(entries, logId)
  {
    LatestAfter(entries, one, logId);
    LatestAfter(entries + [one], two, logId);
  }

  /** `assert_conforms`, run against the file witness: it passes from every valid state, for every log,
      unless the log it expects never to have been used has been. */
  method AssertConforms(w: FileWitness, logId: string) returns (conforms: bool)
    requires w.Valid()
    modifies w
    ensures w.Valid()
    ensures conforms <==> Latest(old(w.entries), logId + "-never-used") == None
  {
    var start := w.LatestSequence(logId);
    var base := if start.None? then 0 else start.value;
    var first := AcceptsNext(w, logId, base, "digest-one");
    var digest := w.DigestAtSequence(logId, base + 1);
    if !first || digest != Some("digest-one") { return false; }
    var refused := RefusesRepeats(w, logId, base);
    if !refused { return false; }
    DigestBeyond(w.entries, Published(logId, base + 2, "digest-two"), logId, base + 1);
    var second := AcceptsNext(w, logId, base + 1, "digest-two");
    digest := w.DigestAtSequence(logId, base + 1);
    if !second || digest != Some("digest-one") { return false; }
    NothingAbove(w.entries, logId, base + 99);
    digest := w.DigestAtSequence(logId, base + 99);
    if digest.Some? { return false; }
    assert |logId + "-never-used"| != |logId|;
    OtherLog(old(w.entries), Published(logId, base + 1, "digest-one"), Published(logId, base + 2, "digest-two"),
             logId + "-never-used");
    var other := w.LatestSequence(logId + "-never-used");
    return other.None?;
  }
}
