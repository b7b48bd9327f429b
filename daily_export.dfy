/**
 * The daily export: take yesterday's window of seconds, read each table's rows
 * of that window in key order, write them as CSV, base64-encode the stream and
 * upload it to a path named after yesterday's date. Local time is a fixed UTC
 * offset in minutes; instants are milliseconds since the epoch.
 */
module DailyExport {
  import opened Outcomes
  import opened Bytes
  import opened Entities
  import opened Store
  import opened Calendar
  import opened Csv
  import opened ExportCsv
  import Utf8
  import Base64

  const DAY_MS := 86_400_000
  const DAY_SECONDS := 86_400

  const INFORMATION_DIR := "stations_information"
  const STATUSES_DIR := "stations_statuses"

  /** The local day number of an instant. */
  function LocalDay(instantMs: int, offsetMinutes: int): int {
    (instantMs + offsetMinutes * 60_000) / DAY_MS
  }

  /** dayjs `unix()`: whole seconds, rounded down. */
  function Unix(instantMs: int): int {
    instantMs / 1000
  }

  /** The instant at which local day `day` starts. */
  function StartOfDay(day: int, offsetMinutes: int): int {
    day * DAY_MS - offsetMinutes * 60_000
  }

  /** `[lowerBoundDate, upperBoundDate]`, in seconds, both included. */
  datatype Window = Window(lower: int, upper: int)

  /**
   * `yesterday.startOf('day').unix()` and `yesterday.endOf('day').unix()`, where
   * `yesterday` is the invocation instant one day back.
   */
  function ExportWindow(nowMs: int, offsetMinutes: int): (w: Window)
    ensures w.upper == w.lower + DAY_SECONDS - 1
  {
    var start := StartOfDay(LocalDay(nowMs, offsetMinutes) - 1, offsetMinutes);
    var lo := (LocalDay(nowMs, offsetMinutes) - 1) * DAY_SECONDS - offsetMinutes * 60;
    assert start == lo * 1000;
    assert Unix(start) == lo && Unix(start + DAY_MS - 1) == lo + DAY_SECONDS - 1;
    Window(Unix(start), Unix(start + DAY_MS - 1))
  }

  /**
   * The window spans one whole day of seconds and ends before the invocation:
   * it starts between one and two days before the invocation's second.
   */
  lemma ExportWindowBounds(nowMs: int, offsetMinutes: int)
    ensures var w := ExportWindow(nowMs, offsetMinutes);
      && w.upper == w.lower + DAY_SECONDS - 1
      && w.lower <= w.upper < Unix(nowMs)
      && w.lower + DAY_SECONDS <= Unix(nowMs) < w.lower + 2 * DAY_SECONDS
  {
    var d := LocalDay(nowMs, offsetMinutes);
    var lo := (d - 1) * DAY_SECONDS - offsetMinutes * 60;
    var start := StartOfDay(d - 1, offsetMinutes);
    assert start == lo * 1000;
    assert Unix(start) == lo;
    assert Unix(start + DAY_MS - 1) == lo + DAY_SECONDS - 1;
    assert d * DAY_MS <= nowMs + offsetMinutes * 60_000 < (d + 1) * DAY_MS;
    assert (lo + DAY_SECONDS) * 1000 <= nowMs < (lo + 2 * DAY_SECONDS) * 1000;
  }

  /** A second lies in the window iff it falls on the local day before the invocation's. */
  lemma ExportWindowIsYesterday(nowMs: int, offsetMinutes: int, t: int)
    ensures var w := ExportWindow(nowMs, offsetMinutes);
      w.lower <= t <= w.upper <==> LocalDay(t * 1000, offsetMinutes) == LocalDay(nowMs, offsetMinutes) - 1
  {
    var d := LocalDay(nowMs, offsetMinutes);
    var lo := (d - 1) * DAY_SECONDS - offsetMinutes * 60;
    ExportWindowBounds(nowMs, offsetMinutes);
    assert ExportWindow(nowMs, offsetMinutes).lower == lo;
    var local := t * 1000 + offsetMinutes * 60_000;
    assert local == (t - lo) * 1000 + (d - 1) * DAY_MS;
    if lo <= t <= lo + DAY_SECONDS - 1 {
      assert (d - 1) * DAY_MS <= local < d * DAY_MS;
    } else if t < lo {
      assert local < (d - 1) * DAY_MS;
    } else {
      assert local >= d * DAY_MS;
    }
  }

  /** `dataset/<dirname>/<name>.csv`. */
  function PathOf(dirname: string, name: string): (p: string)
    ensures |p| == 8 + |dirname| + 1 + |name| + 4
    ensures p[..8 + |dirname| + 1] == "dataset/" + dirname + "/"
    ensures p[|p| - 4..] == ".csv"
    ensures p[8 + |dirname| + 1 .. |p| - 4] == name
  {
    var p := "dataset/" + dirname + "/" + name + ".csv";
    assert p == ("dataset/" + dirname + "/" + name) + ".csv";
    p
  }

  /** `dataset/<dirname>/<DD-MM-YYYY>.csv` for local day `day`. */
  function ArchivePath(dirname: string, day: int): (p: string)
    ensures |p| >= 8 + |dirname| + 1 + 10 + 4
    ensures p[..8 + |dirname| + 1] == "dataset/" + dirname + "/"
    ensures p[|p| - 4..] == ".csv"
    ensures p[8 + |dirname| + 1 .. |p| - 4] == FormatDDMMYYYY(CivilFromDays(day))
  {
    PathOf(dirname, FormatDDMMYYYY(CivilFromDays(day)))
  }

  function CommitMessage(path: string): (m: string)
    ensures |m| == 11 + |path| && m[..11] == "chore: add " && m[11..] == path
  {
    "chore: add " + path
  }

  lemma PathOfInjective(dirname: string, a: string, b: string)
    requires PathOf(dirname, a) == PathOf(dirname, b)
    ensures a == b
  {
    var prefix := "dataset/" + dirname + "/";
    assert PathOf(dirname, a) == prefix + (a + ".csv");
    assert PathOf(dirname, b) == prefix + (b + ".csv");
    assert (prefix + (a + ".csv"))[|prefix|..] == a + ".csv";
    assert (prefix + (b + ".csv"))[|prefix|..] == b + ".csv";
    assert (a + ".csv")[..|a|] == a;
    assert (b + ".csv")[..|b|] == b;
  }

  /** Distinct days are archived under distinct paths, so one day's file never replaces another's. */
  lemma ArchivePathInjective(dirname: string, a: int, b: int)
    requires ArchivePath(dirname, a) == ArchivePath(dirname, b)
    ensures a == b
  {
    var da, db := CivilFromDays(a), CivilFromDays(b);
    PathOfInjective(dirname, FormatDDMMYYYY(da), FormatDDMMYYYY(db));
    FormatDDMMYYYYInjective(da, db);
    CivilFromDaysInjective(a, b);
  }

  lemma PathsOfTablesDiffer(x: string, y: string)
    ensures PathOf(INFORMATION_DIR, x) != PathOf(STATUSES_DIR, y)
  {
    var px, py := PathOf(INFORMATION_DIR, x), PathOf(STATUSES_DIR, y);
    assert px[..8 + |INFORMATION_DIR| + 1][17] == 'i';
    assert py[..8 + |STATUSES_DIR| + 1][17] == 's';
  }

  /** The two tables' files never share a path. */
  lemma ArchivePathsOfTablesDiffer(a: int, b: int)
    ensures ArchivePath(INFORMATION_DIR, a) != ArchivePath(STATUSES_DIR, b)
  {
    PathsOfTablesDiffer(FormatDDMMYYYY(CivilFromDays(a)), FormatDDMMYYYY(CivilFromDays(b)));
  }

  /** One event of a readable stream, as the listeners see it. */
  datatype StreamEvent = Data(chunk: seq<Byte>) | Error(error: string) | End

  /** The state of the promise `streamToBase64` returns. */
  datatype Settled = Pending | Resolved(content: string) | Rejected(error: string)

  function Concat(chunks: seq<seq<Byte>>): seq<Byte>
    decreases |chunks|
  {
    if chunks == [] then [] else Concat(chunks[..|chunks| - 1]) + chunks[|chunks| - 1]
  }

  /**
   * What the promise settles to when `events` arrive after `received` has been
   * buffered: the first `error` rejects, the first `end` resolves with the
   * base64 of every buffered chunk, and whatever follows changes nothing.
   */
  function Settle(events: seq<StreamEvent>, received: seq<Byte>): (r: Settled)
    ensures r.Pending? <==> forall i :: 0 <= i < |events| ==> events[i].Data?
    ensures r.Rejected? ==> Error(r.error) in events
    decreases |events|
  {
    if events == [] then Pending
    else
      match events[0]
      case Data(c) =>
        var r := Settle(events[1..], received + c);
        assert forall i :: 0 < i < |events| ==> events[i] == events[1..][i - 1];
        assert r.Rejected? ==> Error(r.error) in events by {
          if r.Rejected? {
            var i :| 0 <= i < |events[1..]| && events[1..][i] == Error(r.error);
            assert events[i + 1] == Error(r.error);
          }
        }
        r
      case Error(e) => Rejected(e)
      case End => Resolved(Base64.Encode(received))
  }

  /**
   * `streamToBase64`: chunks are pushed as they arrive and concatenated once, at
   * `end`, before encoding; a settled promise ignores later events.
   */
  method StreamToBase64(events: seq<StreamEvent>) returns (settled: Settled)
    ensures settled == Settle(events, [])
  {
    var chunks: seq<seq<Byte>> := [];
    settled := Pending;
    var i := 0;
    while i < |events|
      invariant 0 <= i <= |events|
      invariant settled == Pending ==> Settle(events, []) == Settle(events[i..], Concat(chunks))
      invariant settled != Pending ==> settled == Settle(events, [])
    {
      assert events[i..][1..] == events[i + 1..];
      match events[i] {
        case Data(c) =>
          var before := chunks;
          chunks := chunks + [c];
          assert chunks[..|chunks| - 1] == before;
        case Error(e) =>
          if settled == Pending {
            settled := Rejected(e);
          }
        case End =>
          if settled == Pending {
            settled := Resolved(Base64.Encode(Concat(chunks)));
          }
      }
      i := i + 1;
    }
  }

  function DataEvents(chunks: seq<seq<Byte>>): (r: seq<StreamEvent>)
    ensures |r| == |chunks|
  {
    seq(|chunks|, i requires 0 <= i < |chunks| => Data(chunks[i]))
  }

  lemma {:induction false} SettleData(chunks: seq<seq<Byte>>, received: seq<Byte>, rest: seq<StreamEvent>)
    ensures Settle(DataEvents(chunks) + rest, received) == Settle(rest, received + Concat(chunks))
    decreases |chunks|
  {
    if chunks != [] {
      var front := chunks[..|chunks| - 1];
      var last := chunks[|chunks| - 1];
      assert DataEvents(chunks) + rest == DataEvents(front) + ([Data(last)] + rest);
      SettleData(front, received, [Data(last)] + rest);
      assert ([Data(last)] + rest)[1..] == rest;
      assert received + Concat(front) + last == received + Concat(chunks);
    } else {
      assert DataEvents(chunks) + rest == rest;
      assert received + Concat(chunks) == received;
    }
  }

  /**
   * A stream of chunks followed by `end` resolves to the base64 of all the
   * chunks, concatenated in arrival order, and one followed by an `error`
   * rejects with it, whatever comes after.
   */
  lemma StreamSettles(chunks: seq<seq<Byte>>, e: string, rest: seq<StreamEvent>)
    ensures Settle(DataEvents(chunks) + [End] + rest, []) == Resolved(Base64.Encode(Concat(chunks)))
    ensures Settle(DataEvents(chunks) + [Error(e)] + rest, []) == Rejected(e)
  {
    SettleData(chunks, [], [End] + rest);
    assert DataEvents(chunks) + [End] + rest == DataEvents(chunks) + ([End] + rest);
    SettleData(chunks, [], [Error(e)] + rest);
    assert DataEvents(chunks) + [Error(e)] + rest == DataEvents(chunks) + ([Error(e)] + rest);
    assert [] + Concat(chunks) == Concat(chunks);
  }

  /** The stringifier's chunks: the UTF-8 bytes of each record it writes, in order. */
  function RecordChunks(records: seq<Record>): (r: seq<seq<Byte>>)
    ensures |r| == |records|
  {
    seq(|records|, i requires 0 <= i < |records| => Utf8.Encode(RecordText(records[i])))
  }

  lemma {:induction false} RecordChunksConcat(records: seq<Record>)
    ensures Concat(RecordChunks(records)) == Utf8.Encode(RecordsText(records))
    decreases |records|
  {
    if records != [] {
      var tail := records[1..];
      RecordChunksConcat(tail);
      ConcatFront(RecordChunks(records));
      assert RecordChunks(records)[1..] == RecordChunks(tail);
      Utf8.EncodeConcat(RecordText(records[0]), RecordsText(tail));
    }
  }

  lemma {:induction false} ConcatFront(chunks: seq<seq<Byte>>)
    requires chunks != []
    ensures Concat(chunks) == chunks[0] + Concat(chunks[1..])
    decreases |chunks|
  {
    if |chunks| > 1 {
      var front := chunks[..|chunks| - 1];
      ConcatFront(front);
      assert front[1..] == chunks[1..][..|chunks| - 2];
      assert front[0] == chunks[0];
    } else {
      assert chunks[..0] == [];
    }
  }

  /** The stream `stringify` produces for these records: one chunk per record, then `end`. */
  function StringifierStream(columns: Record, rows: seq<Record>): seq<StreamEvent> {
    DataEvents(RecordChunks(Layout(columns, rows))) + [End]
  }

  /** The request body sent for one upload. */
  datatype PutRequest = PutRequest(path: string, message: string, content: string)

  /** The upload of `pushToGithub(rows, dirname, day)`: path, message and base64 of the whole CSV. */
  function UploadRequest(columns: Record, rows: seq<Record>, dirname: string, day: int): (r: PutRequest)
    ensures r.path == ArchivePath(dirname, day) && r.message == CommitMessage(r.path)
    ensures Base64.Decode(r.content) == Some(Utf8.Encode(Stringify(columns, rows)))
  {
    var path := ArchivePath(dirname, day);
    Base64.DecodeEncode(Utf8.Encode(Stringify(columns, rows)));
    PutRequest(path, CommitMessage(path), Base64.Encode(Utf8.Encode(Stringify(columns, rows))))
  }

  /** The uploaded content decodes to the CSV text of the rows. */
  lemma UploadedContentDecodes(columns: Record, rows: seq<Record>, dirname: string, day: int)
    ensures var content := UploadRequest(columns, rows, dirname, day).content;
      match Base64.Decode(content)
      case Some(bytes) => Utf8.Decode(bytes) == Some(Stringify(columns, rows))
      case None => false
  {
    var text := Stringify(columns, rows);
    Base64.DecodeEncode(Utf8.Encode(text));
    Utf8.DecodeEncode(text);
  }

  /** An upload of status rows reads back to exactly those rows. */
  lemma StatusUploadReadsBack(es: seq<StationStatus>, day: int)
    ensures var content := UploadRequest(STATUS_COLUMNS, StatusRecords(es), STATUSES_DIR, day).content;
      match Base64.Decode(content)
      case Some(bytes) =>
        (match Utf8.Decode(bytes)
         case Some(text) => ReadStatusesCsv(text) == Some(es)
         case None => false)
      case None => false
  {
    UploadedContentDecodes(STATUS_COLUMNS, StatusRecords(es), STATUSES_DIR, day);
    StatusesCsvRoundTrip(es);
  }

  lemma InformationUploadReadsBack(es: seq<StationInformation>, day: int)
    ensures var content := UploadRequest(INFORMATION_COLUMNS, InformationRecords(es), INFORMATION_DIR, day).content;
      match Base64.Decode(content)
      case Some(bytes) =>
        (match Utf8.Decode(bytes)
         case Some(text) => ReadInformationCsv(text) == Some(es)
         case None => false)
      case None => false
  {
    UploadedContentDecodes(INFORMATION_COLUMNS, InformationRecords(es), INFORMATION_DIR, day);
    InformationCsvRoundTrip(es);
  }

  /** The information upload of the export invoked at `nowMs`, over the table's current rows. */
  ghost function InformationUpload(rows: map<Key, StationInformation>, nowMs: int, offsetMinutes: int): PutRequest {
    var w := ExportWindow(nowMs, offsetMinutes);
    UploadRequest(INFORMATION_COLUMNS, InformationRecords(WindowQuery(rows, w.lower, w.upper)), INFORMATION_DIR,
                  LocalDay(nowMs, offsetMinutes) - 1)
  }

  /** The statuses upload of the export invoked at `nowMs`. */
  ghost function StatusUpload(rows: map<Key, StationStatus>, nowMs: int, offsetMinutes: int): PutRequest {
    var w := ExportWindow(nowMs, offsetMinutes);
    UploadRequest(STATUS_COLUMNS, StatusRecords(WindowQuery(rows, w.lower, w.upper)), STATUSES_DIR,
                  LocalDay(nowMs, offsetMinutes) - 1)
  }

  lemma InformationUploadOf(rows: map<Key, StationInformation>, nowMs: int, offsetMinutes: int,
                            information: seq<StationInformation>)
    requires information == WindowQuery(rows, ExportWindow(nowMs, offsetMinutes).lower,
                                        ExportWindow(nowMs, offsetMinutes).upper)
    ensures UploadRequest(INFORMATION_COLUMNS, InformationRecords(information), INFORMATION_DIR,
                          LocalDay(nowMs, offsetMinutes) - 1) == InformationUpload(rows, nowMs, offsetMinutes)
  {
  }

  lemma StatusUploadOf(rows: map<Key, StationStatus>, nowMs: int, offsetMinutes: int, statuses: seq<StationStatus>)
    requires statuses == WindowQuery(rows, ExportWindow(nowMs, offsetMinutes).lower,
                                     ExportWindow(nowMs, offsetMinutes).upper)
    ensures UploadRequest(STATUS_COLUMNS, StatusRecords(statuses), STATUSES_DIR,
                          LocalDay(nowMs, offsetMinutes) - 1) == StatusUpload(rows, nowMs, offsetMinutes)
  {
  }

  /** What can go wrong in one export, step by step; each is the error that step rejects with. */
  datatype Faults = Faults(
    informationQuery: Option<string>,
    informationUpload: Option<string>,
    statusQuery: Option<string>,
    statusUpload: Option<string>)

  /** The outcome of `exportData`: the first failing step's error, or success. */
  function ExportOutcome(f: Faults): (r: Result<()>)
    ensures r.Ok? <==> f.informationQuery.None? && f.informationUpload.None?
                       && f.statusQuery.None? && f.statusUpload.None?
    ensures f.informationQuery.Some? ==> r == Err(f.informationQuery.value)
    ensures f.informationQuery.None? && f.informationUpload.Some? ==> r == Err(f.informationUpload.value)
    ensures f.informationQuery.None? && f.informationUpload.None? && f.statusQuery.Some?
            ==> r == Err(f.statusQuery.value)
    ensures f.informationQuery.None? && f.informationUpload.None? && f.statusQuery.None? && f.statusUpload.Some?
            ==> r == Err(f.statusUpload.value)
  {
    if f.informationQuery.Some? then Err(f.informationQuery.value)
    else if f.informationUpload.Some? then Err(f.informationUpload.value)
    else if f.statusQuery.Some? then Err(f.statusQuery.value)
    else if f.statusUpload.Some? then Err(f.statusUpload.value)
    else Ok(())
  }

  /** The export service, reading the same two repositories the ingestion service writes. */
  class DailyExport {
    const statusRepository: Table<StationStatus>
    const informationRepository: Table<StationInformation>

    ghost predicate Valid()
      reads this, statusRepository, informationRepository
    {
      && statusRepository.Valid() && statusRepository.keyOf == StatusKey
      && informationRepository.Valid() && informationRepository.keyOf == InformationKey
    }

    constructor (statusRepository: Table<StationStatus>, informationRepository: Table<StationInformation>)
      requires statusRepository.Valid() && statusRepository.keyOf == StatusKey
      requires informationRepository.Valid() && informationRepository.keyOf == InformationKey
      ensures Valid()
      ensures this.statusRepository == statusRepository && this.informationRepository == informationRepository
    {
      this.statusRepository := statusRepository;
      this.informationRepository := informationRepository;
    }

    /**
     * `pushToGithub`: stringify the rows, drain the stream into base64 and send
     * the request; `uploadFailure` is how the archive call rejects, if it does.
     */
    method PushToGithub(columns: Record, rows: seq<Record>, dirname: string, day: int,
                        uploadFailure: Option<string>) returns (request: PutRequest, outcome: Result<()>)
      ensures request == UploadRequest(columns, rows, dirname, day)
      ensures outcome == if uploadFailure.None? then Ok(()) else Err(uploadFailure.value)
    {
      var stream := StringifierStream(columns, rows);
      var settled := StreamToBase64(stream);
      var chunks := RecordChunks(Layout(columns, rows));
      StreamSettles(chunks, "", []);
      assert stream == DataEvents(chunks) + [End] + [];
      RecordChunksConcat(Layout(columns, rows));
      var path := ArchivePath(dirname, day);
      request := PutRequest(path, CommitMessage(path), settled.content);
      outcome := if uploadFailure.None? then Ok(()) else Err(uploadFailure.value);
    }

    /**
     * `exportData`: information is read and uploaded, then statuses are read and
     * uploaded, both over the same window and named after yesterday's date. No
     * step is guarded, so the first failure ends the export.
     */
    method ExportData(nowMs: int, offsetMinutes: int, faults: Faults)
      returns (requests: seq<PutRequest>, outcome: Result<()>)
      requires Valid()
      ensures outcome == ExportOutcome(faults)
      ensures var information := InformationUpload(informationRepository.rows, nowMs, offsetMinutes);
        var statuses := StatusUpload(statusRepository.rows, nowMs, offsetMinutes);
        requests ==
          if faults.informationQuery.Some? then []
          else if faults.informationUpload.Some? || faults.statusQuery.Some? then [information]
          else [information, statuses]
    {
      var w := ExportWindow(nowMs, offsetMinutes);
      var day := LocalDay(nowMs, offsetMinutes) - 1;
      if faults.informationQuery.Some? {
        return [], Err(faults.informationQuery.value);
      }
      var information := informationRepository.Find(w.lower, w.upper);
      var informationRequest, pushed := PushToGithub(INFORMATION_COLUMNS, InformationRecords(information),
                                                     INFORMATION_DIR, day, faults.informationUpload);
      InformationUploadOf(informationRepository.rows, nowMs, offsetMinutes, information);
      if pushed.Err? {
        return [informationRequest], pushed;
      }
      if faults.statusQuery.Some? {
        return [informationRequest], Err(faults.statusQuery.value);
      }
      var statuses := statusRepository.Find(w.lower, w.upper);
      var statusRequest;
      statusRequest, outcome := PushToGithub(STATUS_COLUMNS, StatusRecords(statuses), STATUSES_DIR, day,
                                             faults.statusUpload);
      StatusUploadOf(statusRepository.rows, nowMs, offsetMinutes, statuses);
      requests := [informationRequest, statusRequest];
    }
  }
}
