/** The bounded log of vote changes of one ticket, and the replay check that reads it. */
module VoteChanges {
  import opened Tickets
  import opened Encoding

  datatype VoteChangeRecord = VoteChangeRecord(
    request: string, requestSignature: string, response: string, responseSignature: string)

  type Log = map<UInt32, VoteChangeRecord>

  // ---------- The bucket ----------

  /** Every key is a little-endian serial number. */
  ghost predicate SerialKeys(keys: set<Bytes>) {
    forall b | b in keys :: |b| == 4 && UInt32ToBytes(BytesToUInt32(b)) == b
  }

  ghost function Serials(keys: set<Bytes>): set<UInt32>
    requires SerialKeys(keys)
  {
    set b | b in keys :: BytesToUInt32(b)
  }

  /** The bucket with its keys decoded. */
  ghost function Decoded(bkt: map<Bytes, VoteChangeRecord>): (log: Log)
    requires SerialKeys(bkt.Keys)
    ensures forall k: UInt32 :: k in log <==> UInt32ToBytes(k) in bkt
    ensures forall k | k in log :: log[k] == bkt[UInt32ToBytes(k)]
    ensures log.Keys == Serials(bkt.Keys)
  {
    SerialsContain(bkt.Keys);
    map k | k in Serials(bkt.Keys) :: bkt[UInt32ToBytes(k)]
  }

  lemma SerialsContain(keys: set<Bytes>)
    requires SerialKeys(keys)
    ensures forall k: UInt32 :: k in Serials(keys) <==> UInt32ToBytes(k) in keys
  {
    forall k: UInt32
      ensures BytesToUInt32(UInt32ToBytes(k)) == k
    {
      UInt32RoundTrip(k);
    }
  }

  /** Different keys decode to different serials, so counting keys counts records. */
  lemma {:induction false} SerialsCount(keys: set<Bytes>)
    requires SerialKeys(keys)
    ensures |Serials(keys)| == |keys|
  {
    hide UInt32ToBytes, BytesToUInt32;
    if keys != {} {
      var b :| b in keys;
      SerialsCount(keys - {b});
      assert Serials(keys) == Serials(keys - {b}) + {BytesToUInt32(b)};
      assert BytesToUInt32(b) !in Serials(keys - {b});
    }
  }

  lemma NoSerials()
    ensures SerialKeys({}) && Serials({}) == {}
  {
  }

  lemma OneMoreSerial(all: set<Bytes>, seen: set<Bytes>, k: Bytes)
    requires SerialKeys(all) && seen <= all && k in all
    ensures |k| == 4 && SerialKeys(seen) && SerialKeys(seen + {k})
    ensures Serials(seen + {k}) == Serials(seen) + {BytesToUInt32(k)}
  {
  }

  /** lo and hi are the lowest and highest serials of a log that is not empty. */
  ghost predicate Ends(log: Log, lo: UInt32, hi: UInt32) {
    lo in log && hi in log && forall k | k in log :: lo <= k <= hi
  }

  /** The running maximum and minimum of the serials seen, from their start values. */
  ghost predicate Extremes(found: set<UInt32>, newest: UInt32, oldest: UInt32) {
    if found == {} then newest == 0 && oldest == 0xFFFF_FFFF
    else newest in found && oldest in found && forall s | s in found :: oldest <= s <= newest
  }

  lemma NoExtremes()
    ensures Extremes({}, 0, 0xFFFF_FFFF)
  {
  }

  lemma ExtremesStep(found: set<UInt32>, newest: UInt32, oldest: UInt32, key: UInt32)
    requires Extremes(found, newest, oldest)
    ensures Extremes(found + {key}, if key > newest then key else newest, if key < oldest then key else oldest)
  {
  }

  lemma EndsFromExtremes(bkt: map<Bytes, VoteChangeRecord>, newest: UInt32, oldest: UInt32)
    requires SerialKeys(bkt.Keys) && Extremes(Serials(bkt.Keys), newest, oldest)
    ensures |bkt| == |Decoded(bkt)|
    ensures if bkt == map[] then newest == 0 && oldest == 0xFFFF_FFFF else Ends(Decoded(bkt), oldest, newest)
  {
    SerialsCount(bkt.Keys);
    assert |Decoded(bkt)| == |Decoded(bkt).Keys|;
    if bkt != map[] {
      var b :| b in bkt.Keys;
      assert BytesToUInt32(b) in Serials(bkt.Keys);
    }
  }

  /** The log after one more record: the oldest one goes if the limit is reached, and the
      new one gets the serial after the newest, or zero in an empty log. */
  ghost predicate Saved(log: Log, limit: int, record: VoteChangeRecord, log': Log) {
    if log == map[] then log' == map[0 := record]
    else exists lo: UInt32, hi: UInt32 :: Ends(log, lo, hi) && log' == (if |log| >= limit then log - {lo} else log)[AddU32(hi, 1) := record]
  }

  class VoteChangeBucket {
    const maxVoteChangeRecords: int
    var records: map<Bytes, VoteChangeRecord>

    ghost predicate Valid()
      reads this
    {
      SerialKeys(records.Keys)
    }

    constructor (limit: int)
      ensures Valid() && records == map[] && maxVoteChangeRecords == limit
    {
      maxVoteChangeRecords := limit;
      records := map[];
    }

    /** The keys are scanned in whatever order; their byte order is not their numeric order. */
    method Scan() returns (count: nat, newest: UInt32, oldest: UInt32)
      requires Valid()
      ensures count == |Decoded(records)|
      ensures count > 0 ==> Ends(Decoded(records), oldest, newest)
      ensures count == 0 ==> newest == 0 && oldest == 0xFFFF_FFFF
    {
      hide UInt32ToBytes, BytesToUInt32, Serials, SerialKeys, Extremes;
      count, newest, oldest := 0, 0, 0xFFFF_FFFF;
      var todo := records.Keys;
      ghost var found: set<UInt32> := {};
      NoSerials();
      NoExtremes();
      assert records.Keys - todo == {};
      while todo != {}
        invariant todo <= records.Keys && count == |records.Keys| - |todo|
        invariant SerialKeys(records.Keys - todo) && found == Serials(records.Keys - todo)
        invariant Extremes(found, newest, oldest)
        decreases todo
      {
        var k :| k in todo;
        OneMoreSerial(records.Keys, records.Keys - todo, k);
        assert records.Keys - (todo - {k}) == records.Keys - todo + {k};
        var key := BytesToUInt32(k);
        ExtremesStep(found, newest, oldest, key);
        todo, found := todo - {k}, found + {key};
        count := count + 1;
        if key > newest {
          newest := key;
        }
        if key < oldest {
          oldest := key;
        }
      }
      assert records.Keys - todo == records.Keys;
      EndsFromExtremes(records, newest, oldest);
    }

    method SaveVoteChange(record: VoteChangeRecord, ok: bool) returns (saved: bool)
      requires Valid()
      modifies this
      ensures Valid() && saved == ok
      ensures !ok ==> records == old(records)
      ensures ok ==> Saved(Decoded(old(records)), maxVoteChangeRecords, record, Decoded(records))
    {
      if !ok {
        return false;
      }
      var count, newest, oldest := Scan();
      ghost var log := Decoded(records);
      var kept := records;
      if count >= maxVoteChangeRecords {
        kept := kept - {UInt32ToBytes(oldest)};
      }
      var newKey: UInt32 := if count > 0 then AddU32(newest, 1) else 0;
      DeleteDecodes(records, oldest);
      InsertDecodes(kept, newKey, record);
      records := kept[UInt32ToBytes(newKey) := record];
      return true;
    }

    /** All stored records under their serials. */
    method GetVoteChanges() returns (log: Log)
      requires Valid()
      ensures log == Decoded(records)
    {
      hide UInt32ToBytes, BytesToUInt32;
      log := map[];
      var todo := records.Keys;
      while todo != {}
        invariant todo <= records.Keys
        invariant forall k: UInt32 :: k in log <==> UInt32ToBytes(k) in records.Keys - todo
        invariant forall k | k in log :: log[k] == records[UInt32ToBytes(k)]
        decreases todo
      {
        var b :| b in todo;
        todo := todo - {b};
        forall k: UInt32 ensures UInt32ToBytes(k) == b <==> k == BytesToUInt32(b) {
          UInt32RoundTrip(k);
        }
        log := log[BytesToUInt32(b) := records[b]];
      }
    }
  }

  lemma DeleteDecodes(bkt: map<Bytes, VoteChangeRecord>, k: UInt32)
    requires SerialKeys(bkt.Keys)
    ensures SerialKeys((bkt - {UInt32ToBytes(k)}).Keys)
    ensures Decoded(bkt - {UInt32ToBytes(k)}) == Decoded(bkt) - {k}
  {
    hide UInt32ToBytes, BytesToUInt32;
    UInt32RoundTrip(k);
    forall j: UInt32 ensures UInt32ToBytes(j) == UInt32ToBytes(k) <==> j == k {
      UInt32RoundTrip(j);
    }
  }

  lemma InsertDecodes(bkt: map<Bytes, VoteChangeRecord>, k: UInt32, record: VoteChangeRecord)
    requires SerialKeys(bkt.Keys)
    ensures SerialKeys(bkt[UInt32ToBytes(k) := record].Keys)
    ensures Decoded(bkt[UInt32ToBytes(k) := record]) == Decoded(bkt)[k := record]
  {
    hide UInt32ToBytes, BytesToUInt32;
    UInt32RoundTrip(k);
    forall j: UInt32 ensures UInt32ToBytes(j) == UInt32ToBytes(k) <==> j == k {
      UInt32RoundTrip(j);
    }
  }

  // ---------- The sliding window ----------

  /** How many of n saved records are kept. A limit below one keeps one. */
  function Kept(n: nat, limit: int): nat {
    var most := if limit < 1 then 1 else limit;
    if n < most then n else most
  }

  /** The last records of the history, each under its position in it. */
  ghost function Window(history: seq<VoteChangeRecord>, limit: int): Log
    requires |history| <= 0x1_0000_0000
  {
    map i: UInt32 | |history| - Kept(|history|, limit) <= i < |history| :: history[i]
  }

  lemma WindowSize(history: seq<VoteChangeRecord>, limit: int)
    requires |history| <= 0x1_0000_0000
    ensures |Window(history, limit)| == Kept(|history|, limit)
  {
    var n, w := |history|, Window(history, limit);
    assert w.Keys == Range(n - Kept(n, limit), n);
    assert |w| == |w.Keys|;
  }

  lemma WindowEnds(history: seq<VoteChangeRecord>, limit: int, lo: UInt32, hi: UInt32)
    requires 0 < |history| <= 0x1_0000_0000
    ensures Ends(Window(history, limit), lo, hi) <==> lo == |history| - Kept(|history|, limit) && hi == |history| - 1
  {
    var w, first: UInt32, last: UInt32 := Window(history, limit), |history| - Kept(|history|, limit), |history| - 1;
    assert first in w && last in w;
  }

  /** Saving the next record slides the window by one: the key scan, the deletion and the
      new serial together keep the log the last records of the whole history. */
  lemma SaveSlidesWindow(history: seq<VoteChangeRecord>, limit: int, record: VoteChangeRecord, log: Log)
    requires |history| < 0x1_0000_0000 && Saved(Window(history, limit), limit, record, log)
    ensures log == Window(history + [record], limit)
  {
    var n, w := |history|, Window(history, limit);
    WindowSize(history, limit);
    if n == 0 {
      assert w == map[];
    } else {
      var lo: UInt32, hi: UInt32 :| Ends(w, lo, hi)
        && log == (if |w| >= limit then w - {lo} else w)[AddU32(hi, 1) := record];
      WindowEnds(history, limit, lo, hi);
      assert log == (if Kept(n, limit) >= limit then w - {lo} else w)[n := record];
    }
  }

  /** The logs a fresh bucket goes through. */
  ghost predicate SavedRun(logs: seq<Log>, limit: int, history: seq<VoteChangeRecord>) {
    && |logs| == |history| + 1 && logs[0] == map[]
    && forall i | 0 <= i < |history| :: Saved(logs[i], limit, history[i], logs[i+1])
  }

  /** After any number of saves on a fresh bucket the log is the window on their history:
      contiguous serials ending at n - 1, and serial i holds the i-th record saved. */
  lemma {:induction false} BucketIsWindow(logs: seq<Log>, limit: int, history: seq<VoteChangeRecord>, n: nat)
    requires SavedRun(logs, limit, history) && n <= |history| && n <= 0x1_0000_0000
    ensures logs[n] == Window(history[..n], limit)
    ensures |logs[n]| == Kept(n, limit)
  {
    hide Window, Saved, Kept;
    if n == 0 {
      WindowOfNone(history[..0], limit);
    } else {
      BucketIsWindow(logs, limit, history, n - 1);
      SaveSlidesWindow(history[..n-1], limit, history[n-1], logs[n]);
      assert history[..n-1] + [history[n-1]] == history[..n];
    }
    WindowSize(history[..n], limit);
  }

  /** Spelled out: after n saves on a fresh bucket there are min(n, max(1, limit)) records,
      under the serials up to n - 1, and serial i is the i-th record saved. */
  lemma BucketSays(logs: seq<Log>, limit: int, history: seq<VoteChangeRecord>, n: nat)
    requires SavedRun(logs, limit, history) && n <= |history| && n <= 0x1_0000_0000
    ensures var kept := if limit <= 1 then (if n == 0 then 0 else 1) else if n < limit then n else limit;
      && |logs[n]| == kept
      && (forall i: UInt32 :: i in logs[n] <==> n - kept <= i < n)
      && (forall i | i in logs[n] :: logs[n][i] == history[i])
  {
    BucketIsWindow(logs, limit, history, n);
    hide SavedRun;
  }

  lemma WindowOfNone(history: seq<VoteChangeRecord>, limit: int)
    requires history == []
    ensures Window(history, limit) == map[]
  {
  }

  /** Whatever a bucket holds, a save never takes it past the limit, and one that is
      already past it, as after the limit was lowered, never grows. */
  lemma SaveNeverOutgrows(log: Log, limit: int, record: VoteChangeRecord, log': Log)
    requires Saved(log, limit, record, log')
    ensures |log'| <= |log| + 1 && (|log| >= limit && log != map[] ==> |log'| <= |log|)
    ensures log' != map[]
  {
    if log != map[] {
      var lo: UInt32, hi: UInt32 :| Ends(log, lo, hi)
        && log' == (if |log| >= limit then log - {lo} else log)[AddU32(hi, 1) := record];
      assert |log - {lo}| == |log| - 1 by {
        assert (log - {lo}).Keys == log.Keys - {lo} && |(log - {lo}).Keys| == |log - {lo}|;
      }
    }
  }

  // ---------- The replay check ----------

  /** What a saved request was: a vote change, which is checked, or a fee payment, which
      carries a timestamp of the client's choosing and is not. */
  datatype Request = Change(timestamp: Int64) | Payment(timestamp: Int64)

  /** Every stored record parses and is older. */
  ghost predicate AboveAll(log: Log, timestampOf: string -> Option<Int64>, timestamp: Int64) {
    forall k | k in log :: timestampOf(log[k].request).Some? && timestampOf(log[k].request).value < timestamp
  }

  /** The check of one request against the stored records. None is a record that does not parse. */
  method CheckTimestamp(changes: Log, timestampOf: string -> Option<Int64>, timestamp: Int64) returns (r: Option<bool>)
    ensures r == Some(true) <==> AboveAll(changes, timestampOf, timestamp)
    ensures r == Some(true) <==> forall k | k in changes ::
              timestampOf(changes[k].request).Some? && timestampOf(changes[k].request).value < timestamp
    ensures r == Some(false) ==> exists k :: k in changes && timestampOf(changes[k].request).Some?
                                             && timestamp <= timestampOf(changes[k].request).value
    ensures r == None ==> exists k :: k in changes && timestampOf(changes[k].request).None?
  {
    var todo := changes.Keys;
    while todo != {}
      invariant todo <= changes.Keys
      invariant forall k | k in changes && k !in todo ::
                  timestampOf(changes[k].request).Some? && timestampOf(changes[k].request).value < timestamp
      decreases todo
    {
      var k :| k in todo;
      todo := todo - {k};
      var prev := timestampOf(changes[k].request);
      if prev.None? {
        return None;
      }
      if timestamp <= prev.value {
        return Some(false);
      }
    }
    return Some(true);
  }

  /** The check passes against the window on the history. */
  ghost predicate Accepted(history: seq<Request>, limit: int, timestamp: Int64) {
    forall i | |history| - Kept(|history|, limit) <= i < |history| :: history[i].timestamp < timestamp
  }

  /** Records whose requests carry the timestamps of the history. */
  ghost predicate Carries(records: seq<VoteChangeRecord>, timestampOf: string -> Option<Int64>, history: seq<Request>) {
    |records| == |history|
    && forall i | 0 <= i < |records| :: timestampOf(records[i].request) == Some(history[i].timestamp)
  }

  /** What the handler checks, the stored records, is the window on the history. */
  lemma CheckSeesWindow(records: seq<VoteChangeRecord>, history: seq<Request>, limit: int,
                        timestampOf: string -> Option<Int64>, timestamp: Int64)
    requires Carries(records, timestampOf, history) && |history| <= 0x1_0000_0000
    ensures Accepted(history, limit, timestamp) <==> AboveAll(Window(records, limit), timestampOf, timestamp)
  {
    var w := Window(records, limit);
    forall i: UInt32 | |history| - Kept(|history|, limit) <= i < |history|
      ensures i in w && w[i] == records[i]
    {
    }
  }

  /** A history that handlers which read and save atomically can produce. */
  ghost predicate Produced(history: seq<Request>, limit: int) {
    forall j | 0 <= j < |history| && history[j].Change? :: Accepted(history[..j], limit, history[j].timestamp)
  }

  /** Fewer payments than records kept lie between consecutive changes. */
  ghost predicate FewPayments(history: seq<Request>, limit: int) {
    forall i, j | 0 <= i < j < |history| && history[i].Change? && history[j].Change?
                  && (forall k | i < k < j :: history[k].Payment?) :: j - i <= Kept(j, limit)
  }

  /** The timestamps of accepted changes increase over a produced history. */
  lemma {:induction false} ChangesIncrease(history: seq<Request>, limit: int, i: nat, j: nat)
    requires Produced(history, limit) && FewPayments(history, limit)
    requires i < j < |history| && history[i].Change? && history[j].Change?
    ensures history[i].timestamp < history[j].timestamp
    decreases j
  {
    var k := LastChangeBefore(history, i, j);
    assert k < |history[..j]| && history[..j][k] == history[k];
    if i < k {
      ChangesIncrease(history, limit, i, k);
    }
  }

  lemma {:induction false} LastChangeBefore(history: seq<Request>, i: nat, j: nat) returns (k: nat)
    requires i < j <= |history| && history[i].Change?
    ensures i <= k < j && history[k].Change? && forall m | k < m < j :: history[m].Payment?
    decreases j
  {
    if history[j-1].Change? {
      k := j - 1;
    } else {
      k := LastChangeBefore(history, i, j - 1);
    }
  }

  /** The logs a ticket's bucket goes through while handlers save one record after
      another, and check each change against the log as it is at that point. */
  ghost predicate Handled(logs: seq<Log>, limit: int, records: seq<VoteChangeRecord>,
                          timestampOf: string -> Option<Int64>, history: seq<Request>) {
    && SavedRun(logs, limit, records) && Carries(records, timestampOf, history)
    && forall k | 0 <= k < |history| && history[k].Change? :: AboveAll(logs[k], timestampOf, history[k].timestamp)
  }

  /** Checks against the stored logs are checks against the windows on the history. */
  lemma HandledIsProduced(logs: seq<Log>, limit: int, records: seq<VoteChangeRecord>,
                          timestampOf: string -> Option<Int64>, history: seq<Request>)
    requires Handled(logs, limit, records, timestampOf, history) && |history| <= 0x1_0000_0000
    ensures Produced(history, limit)
  {
    forall j | 0 <= j < |history| && history[j].Change?
      ensures Accepted(history[..j], limit, history[j].timestamp)
    {
      BucketIsWindow(logs, limit, records, j);
      CheckSeesWindow(records[..j], history[..j], limit, timestampOf, history[j].timestamp);
    }
  }

  /** Over the whole life of a ticket's bucket, evicted records included, the timestamps of
      accepted changes strictly increase, so no accepted change is accepted again, as
      long as fewer payments than records kept lie between consecutive changes. */
  lemma NoReplay(logs: seq<Log>, limit: int, records: seq<VoteChangeRecord>,
                 timestampOf: string -> Option<Int64>, history: seq<Request>, i: nat, j: nat)
    requires Handled(logs, limit, records, timestampOf, history) && |history| <= 0x1_0000_0000
    requires FewPayments(history, limit)
    requires i < j < |history| && history[i].Change? && history[j].Change?
    ensures history[i].timestamp < history[j].timestamp
    ensures records[i] != records[j]
  {
    HandledIsProduced(logs, limit, records, timestampOf, history);
    ChangesIncrease(history, limit, i, j);
  }

  /** What protects one saved change at one moment, exactly: nothing as old can be accepted
      if and only if some record still kept, whatever it records, is at least as new. */
  lemma ProtectedWhileKept(history: seq<Request>, limit: int, i: nat)
    requires i < |history|
    ensures (forall timestamp: Int64 | Accepted(history, limit, timestamp) :: history[i].timestamp < timestamp)
       <==> exists k :: |history| - Kept(|history|, limit) <= k < |history| && history[k].timestamp >= history[i].timestamp
  {
    if forall k | |history| - Kept(|history|, limit) <= k < |history| :: history[k].timestamp < history[i].timestamp {
      assert Accepted(history, limit, history[i].timestamp);
    }
  }

  /** Any records can be saved in a row on a fresh bucket: the windows are the logs. */
  ghost function Windows(records: seq<VoteChangeRecord>, limit: int): (logs: seq<Log>)
    requires |records| <= 0x1_0000_0000
    ensures |logs| == |records| + 1
    ensures forall k | 0 <= k <= |records| :: logs[k] == Window(records[..k], limit)
  {
    seq(|records| + 1, k requires 0 <= k <= |records| => Window(records[..k], limit))
  }

  lemma WindowIsSaved(history: seq<VoteChangeRecord>, limit: int, record: VoteChangeRecord)
    requires |history| < 0x1_0000_0000
    ensures Saved(Window(history, limit), limit, record, Window(history + [record], limit))
  {
    var n, w := |history|, Window(history, limit);
    var lo: UInt32 := if n == 0 then 0 else n - Kept(n, limit);
    var hi: UInt32 := if n == 0 then 0 else n - 1;
    WindowSize(history, limit);
    if n > 0 {
      WindowEnds(history, limit, lo, hi);
      var log' := (if |w| >= limit then w - {lo} else w)[AddU32(hi, 1) := record];
      assert Saved(w, limit, record, log');
      SaveSlidesWindow(history, limit, record, log');
    } else {
      assert w == map[] && Window(history + [record], limit) == map[0 := record];
    }
  }

  lemma WindowsAreSaved(records: seq<VoteChangeRecord>, limit: int)
    requires |records| <= 0x1_0000_0000
    ensures SavedRun(Windows(records, limit), limit, records)
  {
    WindowOfNone(records[..0], limit);
    forall i | 0 <= i < |records|
      ensures Saved(Windows(records, limit)[i], limit, records[i], Windows(records, limit)[i+1])
    {
      WindowIsSaved(records[..i], limit, records[i]);
      assert records[..i] + [records[i]] == records[..i+1];
    }
  }

  /** The bound is tight for every limit: handlers that take a change, as many older
      payments as records are kept, and then the very same change again, accept it twice. */
  lemma ReplayAfterPayments(limit: int, timestampOf: string -> Option<Int64>, change: VoteChangeRecord, payment: VoteChangeRecord)
    returns (records: seq<VoteChangeRecord>, history: seq<Request>)
    requires limit < 0xFFFF_FFFF && timestampOf(change.request).Some? && timestampOf(payment.request).Some?
    requires timestampOf(payment.request).value < timestampOf(change.request).value
    ensures var most := if limit < 1 then 1 else limit;
      && records == [change] + seq(most, _ => payment) + [change]
      && |history| == most + 2 && history[0].Change? && history[most+1].Change?
      && (forall k | 0 < k <= most :: history[k].Payment?)
      && Handled(Windows(records, limit), limit, records, timestampOf, history)
      && FewPayments(history[..most+1], limit) && !FewPayments(history, limit)
  {
    var most := if limit < 1 then 1 else limit;
    var first, older := Change(timestampOf(change.request).value), Payment(timestampOf(payment.request).value);
    records := [change] + seq(most, _ => payment) + [change];
    history := [first] + seq(most, _ => older) + [first];
    assert Carries(records, timestampOf, history);
    WindowsAreSaved(records, limit);
    TooManyPayments(limit, history);
    OldPaymentsHideNothing(limit, history);
    hide Window, SavedRun, AboveAll, Kept, FewPayments, Accepted;
    forall k | 0 <= k < |history| && history[k].Change?
      ensures AboveAll(Windows(records, limit)[k], timestampOf, history[k].timestamp)
    {
      assert k == 0 || k == most + 1;
      assert Carries(records[..k], timestampOf, history[..k]);
      CheckSeesWindow(records[..k], history[..k], limit, timestampOf, history[k].timestamp);
    }
  }

  /** One payment more than there may be between the first request and the last. */
  lemma TooManyPayments(limit: int, history: seq<Request>)
    requires |history| == (if limit < 1 then 1 else limit) + 2
    requires history[0].Change? && history[|history|-1].Change?
    requires forall k | 0 < k < |history| - 1 :: history[k].Payment?
    ensures FewPayments(history[..|history|-1], limit) && !FewPayments(history, limit)
  {
    var n := |history| - 1;
    assert n - 0 > Kept(n, limit);
    assert history[0].Change? && history[n].Change? && forall k | 0 < k < n :: history[k].Payment?;
  }

  /** The payments in between are all that is kept, and they are older. */
  lemma OldPaymentsHideNothing(limit: int, history: seq<Request>)
    requires |history| == (if limit < 1 then 1 else limit) + 2
    requires forall k | 0 < k < |history| - 1 :: history[k].timestamp < history[|history|-1].timestamp
    ensures Accepted(history[..0], limit, history[0].timestamp)
    ensures Accepted(history[..|history|-1], limit, history[|history|-1].timestamp)
  {
  }
}
