/**
 The client's trust in a coordinator: an explicit fingerprint, or the one kept in the trust record,
 checked on every handshake. Writing the record may fail before it starts or stop part way.
 */
module Trust {
  import opened Options
  import opened Results
  import opened Fingerprint
  import Text

  type Digest = h: string | IsDigest(h) witness seq(DIGITS, i => '0')

  datatype File = Absent | Unreadable | Content(data: string)

  datatype TrustError =
    | PathRequired
    | InvalidExplicit
    | RecordUnreadable
    | InvalidRecord
    | NoTrustedCoordinator

  /** readTrustRecord: a missing file is an empty record; Ok("") means nothing is stored. */
  function ReadTrust(file: File): (r: Result<string, TrustError>)
    ensures r.Ok? && r.value != "" ==> IsDigest(r.value)
  {
    match file
    case Absent => Ok("")
    case Unreadable => Err(RecordUnreadable)
    case Content(data) =>
      var stored := ReadRecord(data);
      if stored.None? then Err(InvalidRecord) else Ok(stored.value)
  }

  /** How a write of the record ends: not opened, opened and truncated but stopped after n characters, or complete. */
  datatype Write = NotOpened | Stopped(n: nat) | Written

  function WriteTrust(file: File, h: Digest, write: Write): File {
    match write
    case NotOpened => file
    case Stopped(n) => Content(if n <= |Record(h)| then Record(h)[..n] else Record(h))
    case Written => Content(Record(h))
  }

  datatype Verifier = Verifier(trusted: Digest, explicit: string, needsUpdate: bool)

  /** NewCoordinatorClientConfig */
  function Configure(file: File, explicitFingerprint: string): Result<Verifier, TrustError> {
    var explicit := Normalize(explicitFingerprint);
    var stored := ReadTrust(file);
    if explicit.None? then Err(InvalidExplicit)
    else if explicit.value != "" then
      Ok(Verifier(explicit.value, explicit.value, stored.Err? || stored.value != explicit.value))
    else if stored.Err? then Err(stored.error)
    else if stored.value == "" then Err(NoTrustedCoordinator)
    else Ok(Verifier(stored.value, "", false))
  }

  datatype Verdict = Accepted | NoCertificate | Mismatch | SaveFailed

  function Judge(v: Verifier, presented: Option<Digest>, write: Write): Verdict {
    if presented.None? then NoCertificate
    else if presented.value != v.trusted then Mismatch
    else if v.needsUpdate && !write.Written? then SaveFailed
    else Accepted
  }

  predicate Writes(v: Verifier, presented: Option<Digest>) {
    presented == Some(v.trusted) && v.needsUpdate
  }

  function Verified(v: Verifier, presented: Option<Digest>, write: Write): Verifier {
    if Writes(v, presented) && write.Written? then v.(needsUpdate := false) else v
  }

  function FileAfter(v: Verifier, file: File, presented: Option<Digest>, write: Write): File {
    if Writes(v, presented) then WriteTrust(file, v.trusted, write) else file
  }

  // ---- the code's objects ----

  class TrustFile {
    const path: string
    var file: File

    constructor (path: string, file: File)
      ensures this.path == path && this.file == file
    {
      this.path, this.file := path, file;
    }

    method ReadTrustRecord() returns (stored: Result<string, TrustError>)
      ensures stored == ReadTrust(file)
    {
      match file {
        case Absent => stored := Ok("");
        case Unreadable => stored := Err(RecordUnreadable);
        case Content(data) =>
          var fingerprint := Normalize(Text.TrimSpace(data));
          if fingerprint.None? || fingerprint.value == "" {
            stored := Err(InvalidRecord);
          } else {
            stored := Ok(fingerprint.value);
          }
      }
    }

    method WriteTrustRecord(h: Digest, write: Write) returns (ok: bool)
      modifies this
      ensures file == WriteTrust(old(file), h, write)
      ensures ok == write.Written?
    {
      if write.NotOpened? {
        return false;
      }
      file := Content("");
      var text := FormatFingerprint(h);
      text := text + "\n";
      var n := if write.Stopped? && write.n <= |text| then write.n else |text|;
      file := Content(text[..n]);
      assert text[..|text|] == text;
      ok := write.Written?;
    }
  }

  class TrustVerifier {
    const store: TrustFile
    const trusted: Digest
    const explicit: string
    var needsUpdate: bool

    ghost function View(): Verifier
      reads this
    {
      Verifier(trusted, explicit, needsUpdate)
    }

    constructor (store: TrustFile, trusted: Digest, explicit: string, needsUpdate: bool)
      ensures this.store == store && View() == Verifier(trusted, explicit, needsUpdate)
    {
      this.store, this.trusted, this.explicit, this.needsUpdate := store, trusted, explicit, needsUpdate;
    }

    /** verifyConnection: the presented fingerprint is printed and parsed before it is compared. */
    method VerifyConnection(presented: Option<Digest>, write: Write) returns (verdict: Verdict)
      modifies this, store
      ensures verdict == Judge(old(View()), presented, write)
      ensures verdict == Accepted <==> presented == Some(trusted) && (old(needsUpdate) ==> write == Written)
      ensures View() == Verified(old(View()), presented, write)
      ensures store.file == FileAfter(old(View()), old(store.file), presented, write)
    {
      if presented.None? {
        return NoCertificate;
      }
      var printed := FormatFingerprint(presented.value);
      var normalized := Normalize(printed);
      FormatThenNormalize(presented.value);
      if normalized != Some(trusted) {
        return Mismatch;
      }
      if needsUpdate {
        var saved := store.WriteTrustRecord(trusted, write);
        if !saved {
          return SaveFailed;
        }
        needsUpdate := false;
      }
      return Accepted;
    }
  }

  /** NewCoordinatorClientConfig: a verifier, or the error. */
  method NewCoordinatorClientConfig(store: TrustFile, explicitFingerprint: string)
    returns (config: Result<TrustVerifier, TrustError>)
    ensures store.path == "" ==> config == Err(PathRequired)
    ensures store.path != "" ==>
              match Configure(store.file, explicitFingerprint)
              case Err(error) => config == Err(error)
              case Ok(v) =>
                config.Ok? && fresh(config.value) && config.value.store == store && config.value.View() == v
  {
    if store.path == "" {
      return Err(PathRequired);
    }
    var explicit := Normalize(explicitFingerprint);
    if explicit.None? {
      return Err(InvalidExplicit);
    }
    var stored := store.ReadTrustRecord();
    if stored.Err? && explicit.value == "" {
      return Err(stored.error);
    }
    if explicit.value == "" && stored.value == "" {
      return Err(NoTrustedCoordinator);
    }
    var needsUpdate := false;
    var expected := explicit.value;
    if explicit.value != "" {
      needsUpdate := stored.Err? || stored.value != explicit.value;
    } else {
      expected := stored.value;
    }
    var verifier := new TrustVerifier(store, expected, explicit.value, needsUpdate);
    config := Ok(verifier);
  }

  // ---- one configuration, one handshake ----

  /** What a configuration yields: an explicit fingerprint, in any accepted spelling, a client for it, whatever the
      record holds, that updates the record unless it holds just that; none at all, a client for what the record
      holds, or the reason why there is none. */
  lemma ConfigureContract(file: File, text: string)
    ensures var config := Configure(file, text);
      && (Normalize(text).None? ==> config == Err(InvalidExplicit))
      && (forall h: Digest :: Normalize(text) == Some(h) ==>
            config == Ok(Verifier(h, h, ReadTrust(file) != Ok(h))))
      && (text == "" && file.Absent? ==> config == Err(NoTrustedCoordinator))
      && (text == "" && file.Unreadable? ==> config == Err(RecordUnreadable))
      && (text == "" && file.Content? ==>
            && var stored := Normalize(Text.TrimSpace(file.data));
            && (stored.None? || stored == Some("") ==> config == Err(InvalidRecord))
            && (forall h: Digest :: stored == Some(h) ==> config == Ok(Verifier(h, "", false))))
  {
  }

  /** What a handshake does: the verdict, what the verifier then still wants, and what the record then holds. */
  lemma HandshakeContract(v: Verifier, file: File, presented: Option<Digest>, write: Write)
    ensures var right := presented == Some(v.trusted);
            var verdict, after := Judge(v, presented, write), Verified(v, presented, write);
            var file' := FileAfter(v, file, presented, write);
      && (verdict == NoCertificate <==> presented == None)
      && (verdict == Mismatch <==> presented.Some? && presented.value != v.trusted)
      && (verdict == SaveFailed <==> right && v.needsUpdate && write != Written)
      && (verdict == Accepted <==> right && (v.needsUpdate ==> write == Written))
      && after.trusted == v.trusted && after.explicit == v.explicit
      && (after.needsUpdate <==> v.needsUpdate && verdict != Accepted)
      && (!(right && v.needsUpdate) || write == NotOpened ==> file' == file)
      && (right && v.needsUpdate && write == Written ==> file' == Content(Format(v.trusted) + "\n"))
      && (right && v.needsUpdate && write.Stopped? ==>
            && file'.Content? && file'.data <= Format(v.trusted) + "\n"
            && (write.n <= |Format(v.trusted)| + 1 ==> |file'.data| == write.n))
  {
  }

  /** However a write ends, the file holds the old record, the new fingerprint, or something that reads as an error. */
  lemma WriteIsNeverMisread(file: File, h: Digest, write: Write)
    ensures var after := ReadTrust(WriteTrust(file, h, write));
            || after == Ok(h) || after.Err? || (write.NotOpened? && after == ReadTrust(file))
    ensures write.Written? ==> ReadTrust(WriteTrust(file, h, write)) == Ok(h)
  {
    var n := if write.Stopped? && write.n <= |Record(h)| then write.n else |Record(h)|;
    TruncatedRecord(h, n);
    assert Record(h)[..|Record(h)|] == Record(h);
  }

  // ---- any number of clients over one record ----

  /** A client, with the record it was configured on. */
  datatype Client = Client(verifier: Verifier, configuredOn: File)

  /** confirmed collects the fingerprints that a coordinator presented to a client told to expect exactly them. */
  datatype World = World(file: File, clients: seq<Client>, confirmed: set<string>)

  datatype Step =
    | Configuring(explicitFingerprint: string)
    | Handshaking(client: nat, presented: Option<Digest>, write: Write)

  function Next(w: World, step: Step): World {
    match step
    case Configuring(text) =>
      var r := Configure(w.file, text);
      if r.Err? then w else w.(clients := w.clients + [Client(r.value, w.file)])
    case Handshaking(i, presented, write) =>
      if i >= |w.clients| then w
      else
        var v := w.clients[i].verifier;
        World(
          FileAfter(v, w.file, presented, write),
          w.clients[i := w.clients[i].(verifier := Verified(v, presented, write))],
          w.confirmed + if presented == Some(v.explicit) then {v.explicit} else {})
  }

  function Run(start: File, steps: seq<Step>): World {
    if steps == [] then World(start, [], {})
    else Next(Run(start, steps[..|steps| - 1]), steps[|steps| - 1])
  }

  /** Where a fingerprint that is not given explicitly may come from. */
  predicate Vouched(start: File, confirmed: set<string>, h: string) {
    ReadTrust(start) == Ok(h) || h in confirmed
  }

  ghost predicate ClientSound(start: File, confirmed: set<string>, c: Client) {
    var v := c.verifier;
    && (v.explicit == "" ==>
          !v.needsUpdate && ReadTrust(c.configuredOn) == Ok(v.trusted) && Vouched(start, confirmed, v.trusted))
    && (v.explicit != "" ==> v.trusted == v.explicit)
    && (v.needsUpdate ==> ReadTrust(c.configuredOn) != Ok(v.explicit))
  }

  ghost predicate WorldSound(start: File, w: World) {
    && (forall i :: 0 <= i < |w.clients| ==> ClientSound(start, w.confirmed, w.clients[i]))
    && (forall h: Digest :: ReadTrust(w.file) == Ok(h) ==> Vouched(start, w.confirmed, h))
  }

  lemma NextKeepsClients(start: File, w: World, step: Step)
    requires WorldSound(start, w)
    ensures var after := Next(w, step);
            forall i :: 0 <= i < |after.clients| ==> ClientSound(start, after.confirmed, after.clients[i])
  {
    var after := Next(w, step);
    forall i | 0 <= i < |after.clients|
      ensures ClientSound(start, after.confirmed, after.clients[i])
    {
      if i < |w.clients| {
        assert ClientSound(start, w.confirmed, w.clients[i]);
      } else {
        var r := Configure(w.file, step.explicitFingerprint);
        assert after.clients[i] == Client(r.value, w.file);
        var h := r.value.trusted;
        assert ReadTrust(w.file) == Ok(h) ==> Vouched(start, w.confirmed, h);
      }
    }
  }

  lemma NextKeepsRecord(start: File, w: World, step: Step)
    requires WorldSound(start, w)
    ensures forall h: Digest :: ReadTrust(Next(w, step).file) == Ok(h) ==> Vouched(start, Next(w, step).confirmed, h)
  {
    if step.Handshaking? && step.client < |w.clients| {
      var c := w.clients[step.client];
      assert ClientSound(start, w.confirmed, c);
      if Writes(c.verifier, step.presented) {
        WriteIsNeverMisread(w.file, c.verifier.trusted, step.write);
      }
    }
  }

  lemma {:induction false} RunIsSound(start: File, steps: seq<Step>)
    ensures WorldSound(start, Run(start, steps))
    decreases |steps|
  {
    if steps == [] {
    } else {
      var before := Run(start, steps[..|steps| - 1]);
      RunIsSound(start, steps[..|steps| - 1]);
      NextKeepsClients(start, before, steps[|steps| - 1]);
      NextKeepsRecord(start, before, steps[|steps| - 1]);
    }
  }

  /** In any run, a handshake is accepted only from the one coordinator the client was configured for. */
  lemma AcceptedIsTrusted(start: File, steps: seq<Step>, i: nat, presented: Option<Digest>, write: Write)
    requires i < |Run(start, steps).clients|
    requires Judge(Run(start, steps).clients[i].verifier, presented, write).Accepted?
    ensures var c := Run(start, steps).clients[i];
            && presented.Some?
            && (c.verifier.explicit != "" ==> presented.value == c.verifier.explicit)
            && (c.verifier.explicit == "" ==>
                  && ReadTrust(c.configuredOn) == Ok(presented.value)
                  && Vouched(start, Run(start, steps).confirmed, presented.value))
  {
    RunIsSound(start, steps);
    assert ClientSound(start, Run(start, steps).confirmed, Run(start, steps).clients[i]);
  }

  /** The fingerprint that a client is configured for: the explicit one, or the one its record held. */
  predicate ConfiguredFor(c: Client, h: Digest) {
    if c.verifier.explicit != "" then c.verifier.explicit == h else ReadTrust(c.configuredOn) == Ok(h)
  }

  /** In any run, what every client answers to every handshake: the coordinator it was configured for is accepted,
      unless a save is still pending and fails; any other is a mismatch. */
  lemma VerdictsOverRuns(start: File, steps: seq<Step>, i: nat, h: Digest, presented: Option<Digest>, write: Write)
    requires i < |Run(start, steps).clients| && ConfiguredFor(Run(start, steps).clients[i], h)
    ensures var v := Run(start, steps).clients[i].verifier;
            var verdict := Judge(v, presented, write);
      && (verdict == Accepted <==> presented == Some(h) && (v.needsUpdate ==> write == Written))
      && (verdict == SaveFailed <==> presented == Some(h) && v.needsUpdate && write != Written)
      && (verdict == Mismatch <==> presented.Some? && presented.value != h)
      && (verdict == NoCertificate <==> presented == None)
  {
    RunIsSound(start, steps);
    var c := Run(start, steps).clients[i];
    assert ClientSound(start, Run(start, steps).confirmed, c);
    HandshakeContract(c.verifier, start, presented, write);
  }

  lemma StepKeepsAccepting(w: World, step: Step, i: nat, h: Digest)
    requires i < |w.clients| && w.clients[i].verifier.trusted == h && !w.clients[i].verifier.needsUpdate
    ensures i < |Next(w, step).clients|
    ensures Next(w, step).clients[i].verifier.trusted == h && !Next(w, step).clients[i].verifier.needsUpdate
  {
  }

  lemma {:induction false} RunKeepsAccepting(start: File, steps: seq<Step>, more: seq<Step>, i: nat, h: Digest)
    requires i < |Run(start, steps).clients|
    requires Run(start, steps).clients[i].verifier.trusted == h && !Run(start, steps).clients[i].verifier.needsUpdate
    ensures i < |Run(start, steps + more).clients|
    ensures var v := Run(start, steps + more).clients[i].verifier; v.trusted == h && !v.needsUpdate
    decreases |more|
  {
    if more == [] {
      assert steps + more == steps;
    } else {
      var init := more[..|more| - 1];
      assert (steps + more)[..|steps + more| - 1] == steps + init;
      RunKeepsAccepting(start, steps, init, i, h);
      StepKeepsAccepting(Run(start, steps + init), more[|more| - 1], i, h);
    }
  }

  /** A client that accepted its coordinator once accepts it ever after, whatever becomes of the record. */
  lemma AcceptedAgain(start: File, steps: seq<Step>, more: seq<Step>, i: nat, h: Digest, write: Write, next: Write)
    requires i < |Run(start, steps).clients| && Judge(Run(start, steps).clients[i].verifier, Some(h), write).Accepted?
    ensures var later := Run(start, steps + [Handshaking(i, Some(h), write)] + more);
      i < |later.clients| && Judge(later.clients[i].verifier, Some(h), next).Accepted?
  {
    var step := Handshaking(i, Some(h), write);
    assert (steps + [step])[..|steps|] == steps;
    HandshakeContract(Run(start, steps).clients[i].verifier, start, Some(h), write);
    RunKeepsAccepting(start, steps + [step], more, i, h);
  }

  /** Nobody is trusted on first contact: with no record to start from, an unguided client follows a confirmed one. */
  lemma NoTrustOnFirstUse(steps: seq<Step>, i: nat)
    requires i < |Run(Absent, steps).clients| && Run(Absent, steps).clients[i].verifier.explicit == ""
    ensures Run(Absent, steps).clients[i].verifier.trusted in Run(Absent, steps).confirmed
  {
    RunIsSound(Absent, steps);
    assert ClientSound(Absent, Run(Absent, steps).confirmed, Run(Absent, steps).clients[i]);
  }

  /** A readable record is the one the run began with, or a fingerprint confirmed under an explicit request for it. */
  lemma RecordProvenance(start: File, steps: seq<Step>, h: Digest)
    requires ReadTrust(Run(start, steps).file) == Ok(h)
    ensures ReadTrust(start) == Ok(h) || h in Run(start, steps).confirmed
  {
    RunIsSound(start, steps);
  }

  /** The record changes only on a matching handshake, under an explicit fingerprint the record did not already hold. */
  lemma RecordChangesOnlyOnRequest(start: File, steps: seq<Step>, step: Step)
    requires Next(Run(start, steps), step).file != Run(start, steps).file
    ensures step.Handshaking? && step.client < |Run(start, steps).clients|
    ensures var c := Run(start, steps).clients[step.client];
            && c.verifier.explicit != ""
            && step.presented == Some(c.verifier.explicit)
            && ReadTrust(c.configuredOn) != Ok(c.verifier.explicit)
            && Next(Run(start, steps), step).file == WriteTrust(Run(start, steps).file, c.verifier.explicit, step.write)
  {
    RunIsSound(start, steps);
    var c := Run(start, steps).clients[step.client];
    assert ClientSound(start, Run(start, steps).confirmed, c);
  }

  /** Once a requested fingerprint is saved, a client given none accepts exactly that coordinator and writes nothing. */
  lemma SavedIdentityIsInherited(v: Verifier, file: File, presented: Option<Digest>, write: Write)
    requires v.needsUpdate && Judge(v, presented, write).Accepted?
    ensures var saved := FileAfter(v, file, presented, write);
            && Configure(saved, "") == Ok(Verifier(v.trusted, "", false))
            && (forall p: Option<Digest>, next: Write ::
                  && (Judge(Verifier(v.trusted, "", false), p, next).Accepted? <==> p == Some(v.trusted))
                  && FileAfter(Verifier(v.trusted, "", false), saved, p, next) == saved)
  {
    WriteIsNeverMisread(file, v.trusted, write);
  }

  /** A save that failed is tried again: the verifier still wants it, and the next good write completes it. */
  lemma FailedSaveIsRetried(v: Verifier, file: File, presented: Option<Digest>, failed: Write)
    requires Judge(v, presented, failed).SaveFailed?
    ensures Verified(v, presented, failed) == v
    ensures Judge(v, presented, Written).Accepted?
    ensures ReadTrust(FileAfter(v, FileAfter(v, file, presented, failed), presented, Written)) == Ok(v.trusted)
  {
    WriteIsNeverMisread(FileAfter(v, file, presented, failed), v.trusted, Written);
  }
}
