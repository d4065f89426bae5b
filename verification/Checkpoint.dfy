/** Checkpoints and freshness (core/checkpoint.py): is the journal at hand the latest one? */
module Checkpoint {
  import opened Wrappers
  import opened Json
  import opened Canonical
  import opened Lines
  import opened Export
  import opened Witness

  const GENESIS_CHECKPOINT := GENESIS

  /** `tip` and `signedAt` are whatever the journal and the clock gave. */
  datatype Checkpoint = Checkpoint(logId: string, sequence: int, tip: Value, previous: string, signedAt: Value,
                                   signature: string)

  function CheckpointBody(c: Checkpoint): Record {
    [Entry("log_id", Str(c.logId)), Entry("sequence", Int(c.sequence)), Entry("journal_tip_hash", c.tip),
     Entry("previous_checkpoint_hash", Str(c.previous)), Entry("signed_at", c.signedAt)]
  }

  function CheckpointText(p: Platform, c: Checkpoint): Result<string, Error> {
    Dumps(p, Dict(CheckpointBody(c)))
  }

  function CheckpointDigest(r: Reader, c: Checkpoint): Result<string, Error> {
    match CheckpointText(r.p, c)
    case Ok(text) => Ok(r.sha(text))
    case Err(e) => Err(e)
  }

  // ------------------------------------------------------------------ the tip of a journal

  function NonBlank(lines: seq<string>): seq<string> {
    if lines == [] then []
    else NonBlank(lines[..|lines| - 1]) + if Blank(lines[|lines| - 1]) then [] else [lines[|lines| - 1]]
  }

  /** `["integrity"]["event_hash"]` of a record; None when an index fails. */
  function EventHash(v: Value): Option<Value> {
    if !v.Dict? || Lookup(v.entries, "integrity").None? then None
    else
      match Lookup(v.entries, "integrity").value
      case Dict(fields) => Lookup(fields, "event_hash")
      case _ => None
  }

  /** The hash of the last record, or genesis for an empty journal; None when it cannot be read. Unlike
      the verifier, this knows one name for the hash only. */
  function JournalTip(p: Platform, text: string): Option<Value> {
    var lines := NonBlank(SplitLines(text));
    if lines == [] then Some(Str(GENESIS))
    else
      match Parse(p, Plain, lines[|lines| - 1])
      case None => None
      case Some(v) => EventHash(v)
  }

  /** `create_checkpoint`; None when the tip, the previous digest or the signed text cannot be had. */
  function CreateCheckpoint(r: Reader, sign: string -> string, text: string, logId: string, sequence: int,
                            previous: Option<Checkpoint>, now: Value): Option<Checkpoint>
  {
    match JournalTip(r.p, text)
    case None => None
    case Some(tip) =>
      var before := match previous case None => Ok(GENESIS_CHECKPOINT) case Some(c) => CheckpointDigest(r, c);
      match before
      case Err(_) => None
      case Ok(hash) =>
        var unsigned := Checkpoint(logId, sequence, tip, hash, now, "");
        match CheckpointText(r.p, unsigned)
        case Err(_) => None
        case Ok(payload) => Some(unsigned.(signature := sign(payload)))
  }

  // ------------------------------------------------------------------ freshness

  datatype FreshnessReport = FreshnessReport(
    signatureValid: bool,
    chainIntact: bool,
    tipMatches: bool,
    sequenceCurrent: bool,
    witnessSequence: Option<int>,
    presentedSequence: int)
  {
    predicate Ok() {
      signatureValid && chainIntact && tipMatches && sequenceCurrent
    }

    function Verdict(): Verdict {
      if !signatureValid then SignatureInvalid
      else if !chainIntact then ChainIsBroken
      else if !tipMatches then TipMismatch
      else if witnessSequence.None? then NotWitnessed
      else if presentedSequence < witnessSequence.value then Rollback
      else if presentedSequence > witnessSequence.value then AheadOfWitness
      else Current
    }
  }

  datatype Verdict = SignatureInvalid | ChainIsBroken | TipMismatch | NotWitnessed | Rollback | AheadOfWitness | Current

  /** `verify_signature`: a body that has no canonical text is as bad as a wrong signature. */
  predicate SignatureValid(r: Reader, signed: (string, string) -> bool, c: Checkpoint) {
    match CheckpointText(r.p, c)
    case Ok(payload) => signed(payload, c.signature)
    case Err(_) => false
  }

  /** The checkpoint is the latest the witness has for its log, and not a different one at that sequence. The
      digest is asked for only if one was published at the sequence; asking for one that cannot be had raises. */
  function IsCurrent(r: Reader, entries: seq<Published>, c: Checkpoint): Option<bool> {
    if Latest(entries, c.logId) != Some(c.sequence) then Some(false)
    else
      match (DigestAt(entries, c.logId, c.sequence), CheckpointDigest(r, c))
      case (None, _) => Some(true)
      case (Some(published), Ok(digest)) => Some(published == digest)
      case _ => None
  }

  /** `signed(payload, signature)` says whether the public key accepts the signature. None when a step raises. */
  function Freshness(r: Reader, signed: (string, string) -> bool, text: string, c: Checkpoint, entries: seq<Published>)
    : Option<FreshnessReport>
  {
    match (Verify(r, text), JournalTip(r.p, text), IsCurrent(r, entries, c))
    case (Some(report), Some(tip), Some(current)) =>
      Some(FreshnessReport(SignatureValid(r, signed, c), report.violations == [], r.equal(tip, c.tip), current,
                           Latest(entries, c.logId), c.sequence))
    case _ => None
  }

  method VerifySignature(r: Reader, signed: (string, string) -> bool, c: Checkpoint) returns (valid: bool)
    ensures valid == SignatureValid(r, signed, c)
  {
    var payload := CheckpointText(r.p, c);
    if payload.Err? { return false; }
    return signed(payload.value, c.signature);
  }

  /** `verify_freshness`: the checks in turn; a fork at the same sequence takes back what was found current. */
  method VerifyFreshness(r: Reader, signed: (string, string) -> bool, text: string, c: Checkpoint, w: FileWitness)
    returns (report: Option<FreshnessReport>)
    ensures report == Freshness(r, signed, text, c, w.entries)
  {
    var signatureValid := VerifySignature(r, signed, c);
    var exported := VerifyExport(r, text);
    if exported.None? { return None; }
    var tip := JournalTip(r.p, text);
    if tip.None? { return None; }
    var tipMatches := r.equal(tip.value, c.tip);
    var witnessSequence := w.LatestSequence(c.logId);
    var sequenceCurrent := witnessSequence.Some? && c.sequence == witnessSequence.value;
    if sequenceCurrent {
      var published := w.DigestAtSequence(c.logId, c.sequence);
      if published.Some? {
        var digest := CheckpointDigest(r, c);
        if digest.Err? { return None; }
        if published.value != digest.value {
          sequenceCurrent := false;
        }
      }
    }
    return Some(FreshnessReport(signatureValid, exported.value.violations == [], tipMatches, sequenceCurrent,
                                witnessSequence, c.sequence));
  }
}
