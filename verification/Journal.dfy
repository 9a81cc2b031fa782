/** The append-only operation journal: short writes, I/O errors at every step, a durable rollback and
    one emergency retry. */
module Journal {
  import opened Outcomes

  newtype byte = x: int | 0 <= x < 256

  const NL: byte := 10

  /** Records are single lines. */
  predicate IsRecord(r: seq<byte>) {
    r != [] && r[|r| - 1] == NL && NL !in r[..|r| - 1]
  }

  predicate Complete(bytes: seq<byte>) { bytes != [] && bytes[|bytes| - 1] == NL }

  datatype IoError = Capacity | OtherError

  /** How one append ends. */
  datatype Result = Appended | WriteError | IntegrityError

  /** The open journal. `durable` is what a crash leaves behind, if that is known. Every operation may
      fail, and a write may stop short. */
  class JournalFile {
    var bytes: seq<byte>
    var durable: Option<seq<byte>>
    var reserve: bool

    constructor (bytes: seq<byte>, reserve: bool)
      ensures this.bytes == bytes && durable == Some(bytes) && this.reserve == reserve
    {
      this.bytes, durable, this.reserve := bytes, Some(bytes), reserve;
    }

    /** A check that touches nothing: fstat, binding and directory validation, opening, unlinking. */
    method Check() returns (error: Option<IoError>)
    {
      error := *;
    }

    /** os.write on an append descriptor. */
    method Write(payload: seq<byte>) returns (written: nat, error: Option<IoError>)
      modifies this`bytes, this`durable
      ensures written <= |payload| && bytes == old(bytes) + payload[..written]
      ensures written == 0 ==> durable == old(durable)
    {
      error := *;
      var n: int := *;
      written := if error.None? && 0 <= n <= |payload| then n else 0;
      bytes := bytes + payload[..written];
      if written > 0 { durable := None; }
    }

    method Fsync() returns (error: Option<IoError>)
      modifies this`durable
      ensures error.None? ==> durable == Some(bytes)
      ensures error.Some? ==> durable == old(durable)
    {
      error := *;
      if error.None? { durable := Some(bytes); }
    }

    method Truncate(size: nat) returns (error: Option<IoError>)
      requires size <= |bytes|
      modifies this`bytes, this`durable
      ensures error.None? ==> bytes == old(bytes)[..size]
      ensures error.Some? ==> bytes == old(bytes) && durable == old(durable)
    {
      error := *;
      if error.None? {
        if size < |bytes| { durable := None; }
        bytes := bytes[..size];
      }
    }

    method WriteAll(payload: seq<byte>) returns (error: Option<IoError>)
      modifies this`bytes, this`durable
      ensures exists k: nat :: k <= |payload| && bytes == old(bytes) + payload[..k] && (error.None? ==> k == |payload|)
      ensures bytes == old(bytes) ==> durable == old(durable)
    {
      var offset := 0;
      while offset < |payload|
        invariant 0 <= offset <= |payload|
        invariant bytes == old(bytes) + payload[..offset]
        invariant offset == 0 ==> durable == old(durable)
      {
        var written;
        written, error := Write(payload[offset..]);
        assert payload[..offset] + payload[offset..][..written] == payload[..offset + written];
        if error.Some? { return; }
        if written == 0 { return Some(OtherError); }
        offset := offset + written;
      }
      return None;
    }

    /** Refuse to append when the journal has no complete final record. */
    method ValidateBoundary() returns (ok: bool)
      ensures ok ==> Complete(bytes)
    {
      if bytes == [] { return false; }
      var error := Check();
      return error.None? && bytes[|bytes| - 1] == NL;
    }

    /** Restore a failed append on its descriptor and make that durable. */
    method RollBack(original: nat, length: nat) returns (ok: bool)
      requires original <= |bytes|
      modifies this`bytes, this`durable
      ensures bytes == old(bytes) || bytes == old(bytes)[..original]
      ensures ok ==> bytes == old(bytes)[..original] && durable == Some(bytes)
    {
      var error := Check();
      if error.Some? || |bytes| > original + length { return false; }
      error := Truncate(original);
      if error.Some? { return false; }
      error := Fsync();
      if error.Some? { return false; }
      error := Check();
      return error.None?;
    }

    /** One try: validate, write, make durable, validate again. None is success. */
    method TryAppend(record: seq<byte>) returns (result: Option<Result>, cause: IoError)
      requires IsRecord(record)
      modifies this`bytes, this`durable
      ensures exists k: nat :: k <= |record| && bytes == old(bytes) + record[..k] &&
                (match result
                 case None => k == |record| && durable == Some(bytes)
                 case Some(WriteError) => k == 0 && (durable == old(durable) || durable == Some(bytes))
                 case Some(IntegrityError) => true
                 case Some(Appended) => false)
      ensures !Complete(old(bytes)) ==> result.Some? && bytes == old(bytes) && durable == old(durable)
      ensures result != Some(IntegrityError) && result != None ==> result == Some(WriteError)
    {
      cause := OtherError;
      var error := Check();
      assert bytes == bytes + record[..0];
      if error.Some? { return Some(WriteError), OtherError; }
      var ready := ValidateBoundary();
      if !ready { return Some(IntegrityError), OtherError; }
      var original := |bytes|;
      error := WriteAll(record);
      ghost var k: nat :| k <= |record| && bytes == old(bytes) + record[..k] && (error.None? ==> k == |record|);
      if error.None? { error := Fsync(); }
      if error.None? { error := Check(); }
      if error.None? { return None, OtherError; }
      cause := error.value;
      var restored := RollBack(original, |record|);
      assert (old(bytes) + record[..k])[..|old(bytes)|] == old(bytes) == old(bytes) + record[..0];
      return if restored then Some(WriteError) else Some(IntegrityError), cause;
    }

    /** Release the emergency reserve; ok only if it was there and its removal is durable. */
    method ReleaseReserve() returns (ok: bool)
      modifies this`reserve
      ensures ok ==> old(reserve) && !reserve
    {
      var error := Check();
      if error.Some? || !reserve { return false; }
      reserve := false;
      error := Check();
      return error.None?;
    }

    /** Append one record: all of it, or none of it, or a reported loss of integrity. */
    method Append(record: seq<byte>) returns (result: Result, tries: nat)
      requires IsRecord(record)
      modifies this
      ensures exists k: nat :: k <= |record| && bytes == old(bytes) + record[..k] &&
                (result.Appended? ==> k == |record|) && (result.WriteError? ==> k == 0)
      ensures !result.IntegrityError? ==> durable == Some(bytes) || (bytes == old(bytes) && durable == old(durable))
      ensures !Complete(old(bytes)) ==> !result.Appended? && bytes == old(bytes)
      ensures tries <= 2 && (tries == 2 ==> old(reserve) && !reserve)
    {
      tries := 0;
      var retryAvailable := true;
      var opening := Check();
      assert bytes == bytes + record[..0];
      if opening.Some? { return WriteError, tries; }
      while true
        invariant bytes == old(bytes) && (durable == old(durable) || durable == Some(bytes))
        invariant retryAvailable ==> tries == 0 && reserve == old(reserve)
        invariant !retryAvailable ==> tries == 1 && old(reserve) && !reserve
        decreases retryAvailable
      {
        var outcome, cause := TryAppend(record);
        tries := tries + 1;
        if outcome.None? { return Appended, tries; }
        if outcome.value.IntegrityError? { return IntegrityError, tries; }
        if !retryAvailable || cause != Capacity { return WriteError, tries; }
        var released := ReleaseReserve();
        if !released { return WriteError, tries; }
        retryAvailable := false;
      }
    }
  }

  // ----- whole runs

  /** What each append left behind, in order. */
  function Written(records: seq<seq<byte>>, kept: seq<nat>): seq<byte>
    requires |kept| <= |records| && forall i :: 0 <= i < |kept| ==> kept[i] <= |records[i]|
  {
    if kept == [] then []
    else Written(records, kept[..|kept| - 1]) + records[|kept| - 1][..kept[|kept| - 1]]
  }

  /** A record was cut in the middle. */
  predicate Torn(record: seq<byte>, k: nat) { 0 < k < |record| }

  /** An account of a run: a returned append kept its whole record, a plain error kept nothing, and
      once a record is torn nothing is ever added behind it. */
  ghost predicate FaithfulRun(records: seq<seq<byte>>, results: seq<Result>, kept: seq<nat>) {
    && |results| == |kept| <= |records|
    && (forall i :: 0 <= i < |kept| ==>
          && kept[i] <= |records[i]|
          && (results[i].Appended? ==> kept[i] == |records[i]|)
          && (results[i].WriteError? ==> kept[i] == 0))
    && (forall i, j :: 0 <= i < j < |kept| && Torn(records[i], kept[i]) ==> kept[j] == 0 && !results[j].Appended?)
  }

  lemma TornIsIncomplete(before: seq<byte>, record: seq<byte>, k: nat)
    requires IsRecord(record) && Torn(record, k)
    ensures !Complete(before + record[..k])
  {
  }

  lemma {:induction false} FaithfulSnoc(records: seq<seq<byte>>, results: seq<Result>, kept: seq<nat>, result: Result,
                                        k: nat)
    requires FaithfulRun(records, results, kept) && |kept| < |records|
    requires k <= |records[|kept|]|
    requires result.Appended? ==> k == |records[|kept|]|
    requires result.WriteError? ==> k == 0
    requires (exists i :: 0 <= i < |kept| && Torn(records[i], kept[i])) ==> k == 0 && !result.Appended?
    ensures FaithfulRun(records, results + [result], kept + [k])
    ensures Written(records, kept + [k]) == Written(records, kept) + records[|kept|][..k]
  {
  }

  ghost predicate SomeTorn(records: seq<seq<byte>>, kept: seq<nat>)
    requires |kept| <= |records|
  {
    exists i :: 0 <= i < |kept| && Torn(records[i], kept[i])
  }

  /** The journal of a run is what was there and what each append kept; it ends in a complete record
      exactly when nothing was torn. */
  ghost predicate Accounted(initial: seq<byte>, bytes: seq<byte>, records: seq<seq<byte>>, results: seq<Result>,
                            kept: seq<nat>) {
    && FaithfulRun(records, results, kept)
    && bytes == initial + Written(records, kept)
    && (Complete(bytes) <==> !SomeTorn(records, kept))
  }

  lemma TornSnoc(records: seq<seq<byte>>, kept: seq<nat>, k: nat)
    requires |kept| < |records|
    ensures SomeTorn(records, kept + [k]) <==> SomeTorn(records, kept) || Torn(records[|kept|], k)
  {
  }

  /** One more append keeps the account. */
  lemma AccountedSnoc(initial: seq<byte>, bytes: seq<byte>, records: seq<seq<byte>>, results: seq<Result>,
                      kept: seq<nat>,
                      result: Result, k: nat)
    requires Accounted(initial, bytes, records, results, kept) && |kept| < |records|
    requires var record := records[|kept|];
             && IsRecord(record) && k <= |record|
             && (result.Appended? ==> k == |record|) && (result.WriteError? ==> k == 0)
             && (!Complete(bytes) ==> k == 0 && !result.Appended?)
    ensures Accounted(initial, bytes + records[|kept|][..k], records, results + [result], kept + [k])
  {
    var record := records[|kept|];
    FaithfulSnoc(records, results, kept, result, k);
    TornSnoc(records, kept, k);
    if Torn(record, k) {
      TornIsIncomplete(bytes, record, k);
    } else if k == 0 {
      assert bytes + record[..k] == bytes;
    } else {
      assert (bytes + record[..k])[|bytes| + k - 1] == record[k - 1];
    }
  }

  /** Any sequence of appends, on a journal that was complete at the start. */
  method AppendAll(file: JournalFile, records: seq<seq<byte>>) returns (results: seq<Result>, ghost kept: seq<nat>)
    requires Complete(file.bytes) && forall i :: 0 <= i < |records| ==> IsRecord(records[i])
    modifies file
    ensures |results| == |records| && Accounted(old(file.bytes), file.bytes, records, results, kept)
  {
    results, kept := [], [];
    assert file.bytes == file.bytes + [];
    for n := 0 to |records|
      invariant |results| == |kept| == n && Accounted(old(file.bytes), file.bytes, records, results, kept)
    {
      ghost var before := file.bytes;
      var result, tries := file.Append(records[n]);
      ghost var k: nat :| k <= |records[n]| && file.bytes == before + records[n][..k] &&
                          (result.Appended? ==> k == |records[n]|) && (result.WriteError? ==> k == 0);
      if !Complete(before) {
        assert k == 0 by { assert |file.bytes| == |before| + k; }
      }
      AccountedSnoc(old(file.bytes), before, records, results, kept, result, k);
      results, kept := results + [result], kept + [k];
    }
  }

  /** Without an integrity error the journal is the old bytes and exactly the returned records. */
  lemma {:induction false} CleanRunIsExact(records: seq<seq<byte>>, results: seq<Result>, kept: seq<nat>)
    requires FaithfulRun(records, results, kept) && forall i :: 0 <= i < |results| ==> !results[i].IntegrityError?
    ensures Written(records, kept) == Returned(records, results)
    decreases |kept|
  {
    if kept != [] {
      var n := |kept| - 1;
      CleanRunIsExact(records, results[..n], kept[..n]);
      assert records[n][..|records[n]|] == records[n];
    }
  }

  /** The records of the appends that returned normally, in order. */
  function Returned(records: seq<seq<byte>>, results: seq<Result>): seq<byte>
    requires |results| <= |records|
  {
    if results == [] then []
    else
      var n := |results| - 1;
      Returned(records, results[..n]) + (if results[n].Appended? then records[n] else [])
  }
}
