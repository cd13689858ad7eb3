/**
 * services/entries_service.go and services/audit_service.go: the entry store
 * and the per-key visit log. The data directory is abstracted to two maps:
 * entry.json of each key (present or not; if present, decodable to an
 * envelope or not) and history.ndjson of each key (a sequence of lines, each
 * a JSON record or not).
 */
module Entries {
  import opened Wrappers
  import Types
  import Keys

  /** The optional credential sub-record main.go reads as entry.Data.Encrypt (methodName is its Method). */
  datatype Encrypt = Encrypt(methodName: Option<string>, password: Option<string>)

  /** EntryData: every field optional (a nil pointer in Go is None here). */
  datatype EntryData = EntryData(
    images: Option<seq<string>>,
    originLocation: Option<string>,
    postDate: Option<string>,
    recipientName: Option<string>,
    remarks: Option<string>,
    encrypt: Option<Encrypt>)

  /** The contents of entry.json; createdAt 0 is Go's zero time.Time. */
  datatype EntryEnvelope = EntryEnvelope(data: EntryData, createdAt: int)

  /** The persisted part of a visit (UAObj and IPObj are `json:"-"` and never stored). */
  datatype HistoryRecord = HistoryRecord(time: int, ua: string, ip: string)

  /** One line of history.ndjson: a record json.Encoder wrote, or bytes that do not decode. */
  datatype LogLine = Line(rec: HistoryRecord) | Garbled

  /**
   * How one write to a file ends: it succeeds, the file cannot be opened
   * (nothing changes), or the write fails part way through (the file is left
   * holding bytes that do not decode).
   */
  datatype WriteOutcome = Written | OpenFailed | Torn

  datatype EntryError = InvalidKey | KeyNotFound | IoFailed | NotExist | DecodeFailed

  // ---------------------------------------------------------------------------
  // The entry file

  /**
   * The CreatedAt SaveData writes: that of the envelope already on disk if it
   * decodes and is not the zero time, else the current time.
   */
  function Stamp(entries: map<string, Option<EntryEnvelope>>, key: string, now: int): (t: int)
    ensures key in entries && entries[key].Some? && entries[key].value.createdAt != 0 ==>
              t == entries[key].value.createdAt
    ensures !(key in entries && entries[key].Some? && entries[key].value.createdAt != 0) ==> t == now
    ensures t != 0 || now == 0
  {
    if key in entries && entries[key].Some? && entries[key].value.createdAt != 0
    then entries[key].value.createdAt
    else now
  }

  /**
   * The entry files after a successful SaveData: the key's envelope holds
   * exactly the new data under the kept or fresh CreatedAt, and no other
   * key's file changes.
   */
  function Store(entries: map<string, Option<EntryEnvelope>>, key: string, data: EntryData, now: int)
    : (e: map<string, Option<EntryEnvelope>>)
    ensures e.Keys == entries.Keys + {key}
    ensures forall k :: k in entries && k != key ==> e[k] == entries[k]
    ensures e[key].Some? && e[key].value.data == data
    ensures e[key].value.createdAt == Stamp(entries, key, now)
  {
    entries[key := Some(EntryEnvelope(data, Stamp(entries, key, now)))]
  }

  /** Once a key's envelope carries a non-zero CreatedAt, no later save changes it. */
  lemma {:induction false} CreatedAtSurvives(entries: map<string, Option<EntryEnvelope>>, key: string,
                                             saves: seq<(EntryData, int)>)
    requires key in entries && entries[key].Some? && entries[key].value.createdAt != 0
    ensures var e := StoreAll(entries, key, saves);
            key in e && e[key].Some? && e[key].value.createdAt == entries[key].value.createdAt
  {
    if saves != [] {
      var e := Store(entries, key, saves[0].0, saves[0].1);
      CreatedAtSurvives(e, key, saves[1..]);
    }
  }

  /** The first save of a key stamps it with its own clock reading, and every later save keeps that stamp. */
  lemma FirstSaveStamps(entries: map<string, Option<EntryEnvelope>>, key: string,
                        data: EntryData, now: int, later: seq<(EntryData, int)>)
    requires key !in entries && now != 0
    ensures var e := StoreAll(entries, key, [(data, now)] + later);
            key in e && e[key].Some? && e[key].value.createdAt == now
  {
    assert ([(data, now)] + later)[1..] == later;
    CreatedAtSurvives(Store(entries, key, data, now), key, later);
  }

  /** Successive successful saves of one key, each with its data and clock reading. */
  function StoreAll(entries: map<string, Option<EntryEnvelope>>, key: string, saves: seq<(EntryData, int)>)
    : (e: map<string, Option<EntryEnvelope>>)
    ensures saves != [] ==> key in e && e[key].Some? && e[key].value.data == saves[|saves| - 1].0
    decreases saves
  {
    if saves == [] then entries
    else StoreAll(Store(entries, key, saves[0].0, saves[0].1), key, saves[1..])
  }

  // ---------------------------------------------------------------------------
  // The visit log

  /** The log after one successful append: the old lines (none if the file is new), then the record. */
  function Appended(history: map<string, seq<LogLine>>, key: string, line: LogLine)
    : (h: map<string, seq<LogLine>>)
    ensures key in h && h[key] == LogOf(history, key) + [line]
    ensures forall k :: k in history && k != key ==> k in h && h[k] == history[k]
    ensures h.Keys == history.Keys + {key}
  {
    history[key := LogOf(history, key) + [line]]
  }

  /**
   * What one visit record does to the history, as RecorduaNewlinejson
   * appends it: the record's line after a full write, nothing when the
   * directory or the file cannot be made, a garbled line after a torn write.
   */
  ghost predicate Audited(after: map<string, seq<LogLine>>, before: map<string, seq<LogLine>>,
                          key: string, rec: HistoryRecord, mkdir: bool, write: WriteOutcome)
  {
    && (mkdir && write == Written ==> after == Appended(before, key, Line(rec)))
    && (!mkdir || write == OpenFailed ==> after == before)
    && (mkdir && write == Torn ==> after == Appended(before, key, Garbled))
  }

  /** The lines of a key's log; a missing file reads as no lines. */
  function LogOf(history: map<string, seq<LogLine>>, key: string): seq<LogLine> {
    if key in history then history[key] else []
  }

  /**
   * The decode loop of ReadUARecords: the records in file order, or None as
   * soon as one line does not decode.
   */
  function DecodeLog(log: seq<LogLine>): (recs: Option<seq<HistoryRecord>>)
    ensures recs.Some? <==> forall i :: 0 <= i < |log| ==> log[i].Line?
    ensures recs.Some? ==> |recs.value| == |log| &&
                           forall i :: 0 <= i < |log| ==> recs.value[i] == log[i].rec
  {
    if log == [] then Some([])
    else if log[|log| - 1].Garbled? then None
    else match DecodeLog(log[..|log| - 1])
      case None => None
      case Some(rs) => Some(rs + [log[|log| - 1].rec])
  }

  /** A sequence backwards. */
  function Reversed<T>(s: seq<T>): (r: seq<T>)
    ensures |r| == |s|
    ensures forall i :: 0 <= i < |s| ==> r[i] == s[|s| - 1 - i]
  {
    if s == [] then [] else [s[|s| - 1]] + Reversed(s[..|s| - 1])
  }

  /**
   * What ReadUARecords returns: nothing (and no error) for a key without a
   * log, an error if any line does not decode, else every record, newest first.
   */
  function NewestFirst(history: map<string, seq<LogLine>>, key: string)
    : (r: Result<seq<HistoryRecord>, EntryError>)
    ensures key !in history ==> r == Ok([])
    ensures r.Err? <==> key in history && exists i :: 0 <= i < |history[key]| && history[key][i].Garbled?
    ensures r.Err? ==> r.error == DecodeFailed
    ensures r.Ok? && key in history ==>
              |r.value| == |history[key]| &&
              forall i :: 0 <= i < |r.value| ==> Line(r.value[i]) == history[key][|history[key]| - 1 - i]
  {
    if key !in history then Ok([])
    else match DecodeLog(history[key])
      case None => Err(DecodeFailed)
      case Some(recs) => Ok(Reversed(recs))
  }

  /** The log a run of successful appends of these records produces. */
  function Lines(recs: seq<HistoryRecord>): (log: seq<LogLine>)
    ensures |log| == |recs|
    ensures forall i :: 0 <= i < |recs| ==> log[i] == Line(recs[i])
  {
    if recs == [] then [] else Lines(recs[..|recs| - 1]) + [Line(recs[|recs| - 1])]
  }

  /** Appending records one by one to a key's log. */
  function AppendAll(history: map<string, seq<LogLine>>, key: string, recs: seq<HistoryRecord>)
    : (h: map<string, seq<LogLine>>)
  {
    if recs == [] then history
    else Appended(AppendAll(history, key, recs[..|recs| - 1]), key, Line(recs[|recs| - 1]))
  }

  /** Appending never rewrites what is already in the log: the old lines stay, in order, in front. */
  lemma {:induction false} AppendAllExtends(history: map<string, seq<LogLine>>, key: string, recs: seq<HistoryRecord>)
    ensures recs != [] ==> key in AppendAll(history, key, recs)
    ensures LogOf(AppendAll(history, key, recs), key) == LogOf(history, key) + Lines(recs)
  {
    if recs != [] {
      var init := recs[..|recs| - 1];
      AppendAllExtends(history, key, init);
      assert Lines(recs) == Lines(init) + [Line(recs[|recs| - 1])];
    }
  }

  /** Round trip: records appended to a key with no log read back newest first. */
  lemma AppendThenRead(history: map<string, seq<LogLine>>, key: string, recs: seq<HistoryRecord>)
    requires key !in history
    ensures NewestFirst(AppendAll(history, key, recs), key) == Ok(Reversed(recs))
  {
    AppendAllExtends(history, key, recs);
    var h := AppendAll(history, key, recs);
    if recs != [] {
      assert h[key] == Lines(recs);
      var d := DecodeLog(h[key]);
      assert d.value == recs;
    } else {
      assert h == history;
    }
  }

  /** One more append puts the new record at the front of the next read, before everything read so far. */
  lemma AppendReadsFirst(history: map<string, seq<LogLine>>, key: string, rec: HistoryRecord)
    requires NewestFirst(history, key).Ok?
    ensures NewestFirst(Appended(history, key, Line(rec)), key) == Ok([rec] + NewestFirst(history, key).value)
  {
    var h := Appended(history, key, Line(rec));
    var r := NewestFirst(h, key);
    var before := NewestFirst(history, key).value;
    assert !r.Err?;
    assert r.value == [rec] + before;
  }

  // ---------------------------------------------------------------------------

  /**
   * entry.json after SaveData got past its key checks: a failed MkdirAll or
   * a failed open changes nothing, a torn write leaves a file that does not
   * decode, a full write stores the envelope.
   */
  function AfterWrite(entries: map<string, Option<EntryEnvelope>>, key: string, data: EntryData, now: int,
                      mkdir: bool, write: WriteOutcome): map<string, Option<EntryEnvelope>>
  {
    if !mkdir then entries
    else match write
      case Written => Store(entries, key, data, now)
      case OpenFailed => entries
      case Torn => entries[key := None]
  }

  /** The entry store: a key registry and the files under dataDir/entries. */
  class EntriesService {
    const registry: Keys.KeysService
    /** entry.json per key: present or absent; None when present but undecodable (also when empty). */
    var entries: map<string, Option<EntryEnvelope>>
    /** history.ndjson per key. */
    var history: map<string, seq<LogLine>>

    /** NewEntriesService, over whatever files the data directory already holds. */
    constructor (ks: Keys.KeysService, entriesOnDisk: map<string, Option<EntryEnvelope>>,
                 historyOnDisk: map<string, seq<LogLine>>)
      ensures registry == ks && entries == entriesOnDisk && history == historyOnDisk
    {
      registry := ks;
      entries := entriesOnDisk;
      history := historyOnDisk;
    }

    /**
     * SaveData: refuse an invalid key, then a key the registry does not hold;
     * otherwise create the directory and write the envelope. `now` is
     * time.Now(); `mkdir` is whether MkdirAll succeeds; `write` how
     * os.WriteFile ends.
     */
    method SaveData(key: string, data: EntryData, now: int, mkdir: bool, write: WriteOutcome)
      returns (r: Result<(), EntryError>)
      modifies this`entries
      ensures !Types.ValidKey(key) ==> r == Err(InvalidKey) && entries == old(entries)
      ensures Types.ValidKey(key) && registry.Get(key).None? ==> r == Err(KeyNotFound) && entries == old(entries)
      ensures Types.ValidKey(key) && registry.Get(key).Some? ==>
                && (r.Ok? <==> mkdir && write == Written)
                && (r.Err? ==> r.error == IoFailed)
                && (r.Ok? ==> entries == Store(old(entries), key, data, now))
                && (!mkdir || write == OpenFailed ==> entries == old(entries))
                && (mkdir && write == Torn ==> entries == old(entries)[key := None])
                && entries == AfterWrite(old(entries), key, data, now, mkdir, write)
      ensures r.Ok? ==> HasData(key) && LoadData(key) == Ok(EntryEnvelope(data, Stamp(old(entries), key, now)))
    {
      if !Types.ValidKey(key) {
        return Err(InvalidKey);
      }
      if registry.Get(key).None? {
        return Err(KeyNotFound);
      }
      if !mkdir {
        return Err(IoFailed);
      }
      var env := EntryEnvelope(data, now);
      if key in entries && entries[key].Some? && entries[key].value.createdAt != 0 {
        env := env.(createdAt := entries[key].value.createdAt);
      }
      match write
      case Written =>
        entries := entries[key := Some(env)];
        return Ok(());
      case OpenFailed =>
        return Err(IoFailed);
      case Torn =>
        entries := entries[key := None];
        return Err(IoFailed);
    }

    /**
     * LoadData: the decoded envelope, or an error when the file is missing
     * or does not decode. There is no ValidKey check here.
     */
    function LoadData(key: string): (r: Result<EntryEnvelope, EntryError>)
      reads this
      ensures r.Ok? <==> key in entries && entries[key].Some?
      ensures r.Ok? ==> r.value == entries[key].value
      ensures r == Err(NotExist) <==> key !in entries
      ensures r == Err(DecodeFailed) <==> key in entries && entries[key].None?
    {
      if key !in entries then Err(NotExist)
      else if entries[key].None? then Err(DecodeFailed)
      else Ok(entries[key].value)
    }

    /** HasData: entry.json exists, asked only for a valid key. */
    function HasData(key: string): (b: bool)
      reads this
      ensures b <==> Types.ValidKey(key) && key in entries
      ensures b ==> LoadData(key) != Err(NotExist)
    {
      Types.ValidKey(key) && key in entries
    }

    /**
     * RecorduaNewlinejson: append one record to the key's log, creating the
     * file if it is missing. Nothing checks the key. `mkdir` and `write`
     * as for SaveData; a torn append leaves a line that does not decode.
     */
    method RecordUaNewlineJson(key: string, rec: HistoryRecord, mkdir: bool, write: WriteOutcome)
      returns (r: Result<(), EntryError>)
      modifies this`history
      ensures r.Ok? <==> mkdir && write == Written
      ensures r.Err? ==> r.error == IoFailed
      ensures r.Ok? ==> history == Appended(old(history), key, Line(rec))
      ensures !mkdir || write == OpenFailed ==> history == old(history)
      ensures mkdir && write == Torn ==> history == Appended(old(history), key, Garbled)
    {
      if !mkdir {
        return Err(IoFailed);
      }
      match write
      case Written =>
        history := history[key := LogOf(history, key) + [Line(rec)]];
        return Ok(());
      case OpenFailed =>
        return Err(IoFailed);
      case Torn =>
        history := history[key := LogOf(history, key) + [Garbled]];
        return Err(IoFailed);
    }

    /** RecordUA_NewlineJSON in entries_service.go: the same append as RecorduaNewlinejson. */
    method RecordUANewlineJSON(key: string, rec: HistoryRecord, mkdir: bool, write: WriteOutcome)
      returns (r: Result<(), EntryError>)
      modifies this`history
      ensures r.Ok? <==> mkdir && write == Written
      ensures r.Err? ==> r.error == IoFailed
      ensures r.Ok? ==> history == Appended(old(history), key, Line(rec))
      ensures !mkdir || write == OpenFailed ==> history == old(history)
      ensures mkdir && write == Torn ==> history == Appended(old(history), key, Garbled)
    {
      r := RecordUaNewlineJson(key, rec, mkdir, write);
    }

    /**
     * ReadUARecords: decode the log line by line, stopping with an error at
     * the first line that does not decode, then reverse the records in place.
     */
    method ReadUARecords(key: string) returns (r: Result<seq<HistoryRecord>, EntryError>)
      ensures r == NewestFirst(history, key)
    {
      if key !in history {
        return Ok([]);
      }
      var log := history[key];
      var records: seq<HistoryRecord> := [];
      for i := 0 to |log|
        invariant DecodeLog(log[..i]) == Some(records)
      {
        assert log[..i + 1][..i] == log[..i];
        if log[i].Garbled? {
          return Err(DecodeFailed);
        }
        records := records + [log[i].rec];
      }
      assert log[..|log|] == log;
      var a := new HistoryRecord[|records|](j requires 0 <= j < |records| => records[j]);
      assert a[..] == records;
      ReverseInPlace(a);
      assert NewestFirst(history, key) == Ok(Reversed(records));
      return Ok(a[..]);
    }
  }

  /** The swap loop of ReadUARecords: i from the front, j from the back, until they meet. */
  method ReverseInPlace<T>(a: array<T>)
    modifies a
    ensures a[..] == Reversed(old(a[..]))
  {
    var i, j := 0, a.Length - 1;
    while i < j
      invariant 0 <= i <= a.Length && j == a.Length - 1 - i && i <= j + 1
      invariant forall t :: 0 <= t < i ==> a[t] == old(a[a.Length - 1 - t])
      invariant forall t :: j < t < a.Length ==> a[t] == old(a[a.Length - 1 - t])
      invariant forall t :: i <= t <= j ==> a[t] == old(a[t])
    {
      a[i], a[j] := a[j], a[i];
      i, j := i + 1, j - 1;
    }
  }
}
