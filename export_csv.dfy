/**
 * How `stringify(entities, { delimiter: ',', header: true })` lays out the rows
 * of one table: the columns are the entity's properties in declaration order,
 * discovered from the first record, so the header precedes the first row and
 * an empty result set writes nothing at all. Numbers are written as
 * `String(n)`, strings as they are.
 */
module ExportCsv {
  import opened Outcomes
  import opened Text
  import opened Entities
  import opened Csv

  const STATUS_COLUMNS: Record := ["updated_time", "station_id", "num_bikes_available",
    "num_bikes_disabled", "num_docks_available", "is_installed", "is_renting", "is_returning", "last_reported"]

  const INFORMATION_COLUMNS: Record := ["updated_time", "station_id", "name", "lat", "lon", "capacity"]

  /** A status entity as a record, one field per column; it reads back to the entity. */
  function StatusFields(e: StationStatus): (r: Record)
    ensures |r| == |STATUS_COLUMNS|
    ensures ReadStatus(r) == Some(e)
  {
    IntToDecimalRoundTrip(e.updated_time);
    IntToDecimalRoundTrip(e.num_bikes_available);
    IntToDecimalRoundTrip(e.num_bikes_disabled);
    IntToDecimalRoundTrip(e.num_docks_available);
    IntToDecimalRoundTrip(e.is_installed);
    IntToDecimalRoundTrip(e.is_renting);
    IntToDecimalRoundTrip(e.is_returning);
    IntToDecimalRoundTrip(e.last_reported);
    [IntToDecimal(e.updated_time), e.station_id, IntToDecimal(e.num_bikes_available),
     IntToDecimal(e.num_bikes_disabled), IntToDecimal(e.num_docks_available), IntToDecimal(e.is_installed),
     IntToDecimal(e.is_renting), IntToDecimal(e.is_returning), IntToDecimal(e.last_reported)]
  }

  /** An information entity as a record; it reads back to the entity. */
  function InformationFields(e: StationInformation): (r: Record)
    ensures |r| == |INFORMATION_COLUMNS|
    ensures ReadInformation(r) == Some(e)
  {
    IntToDecimalRoundTrip(e.updated_time);
    IntToDecimalRoundTrip(e.capacity);
    [IntToDecimal(e.updated_time), e.station_id, e.name, e.lat.text, e.lon.text, IntToDecimal(e.capacity)]
  }

  function StatusRecords(es: seq<StationStatus>): (r: seq<Record>)
    ensures |r| == |es|
    decreases |es|
  {
    if es == [] then [] else [StatusFields(es[0])] + StatusRecords(es[1..])
  }

  function InformationRecords(es: seq<StationInformation>): (r: seq<Record>)
    ensures |r| == |es|
    decreases |es|
  {
    if es == [] then [] else [InformationFields(es[0])] + InformationRecords(es[1..])
  }

  /**
   * The records csv-stringify writes: the header and then the rows in order, or
   * nothing for no rows, since the header comes from the first row.
   */
  function Layout(columns: Record, rows: seq<Record>): (r: seq<Record>)
    ensures |r| == if rows == [] then 0 else |rows| + 1
    ensures rows != [] ==> r[0] == columns && r[1..] == rows
  {
    if rows == [] then [] else [columns] + rows
  }

  /**
   * The text written: it reads back as the layout's records, so one header
   * record followed by one record per row, and it is empty iff there are no rows.
   */
  function Stringify(columns: Record, rows: seq<Record>): (text: string)
    ensures ReadRecords(text) == Some(Layout(columns, rows))
    ensures text == "" <==> rows == []
  {
    var l := Layout(columns, rows);
    RecordsRoundTrip(l);
    RecordsText(l)
  }

  function StatusesCsv(es: seq<StationStatus>): string {
    Stringify(STATUS_COLUMNS, StatusRecords(es))
  }

  function InformationCsv(es: seq<StationInformation>): string {
    Stringify(INFORMATION_COLUMNS, InformationRecords(es))
  }

  /** Reads one status record back into an entity. */
  function ReadStatus(r: Record): Option<StationStatus> {
    if |r| != 9 then None
    else if ParseInt(r[0]).None? || ParseInt(r[2]).None? || ParseInt(r[3]).None? || ParseInt(r[4]).None?
      || ParseInt(r[5]).None? || ParseInt(r[6]).None? || ParseInt(r[7]).None? || ParseInt(r[8]).None? then None
    else
      Some(StationStatus(ParseInt(r[0]).value, r[1], ParseInt(r[2]).value, ParseInt(r[3]).value,
        ParseInt(r[4]).value, ParseInt(r[5]).value, ParseInt(r[6]).value, ParseInt(r[7]).value,
        ParseInt(r[8]).value))
  }

  function ReadInformation(r: Record): Option<StationInformation> {
    if |r| != 6 then None
    else if ParseInt(r[0]).None? || ParseInt(r[5]).None? then None
    else Some(StationInformation(ParseInt(r[0]).value, r[1], r[2], Decimal(r[3]), Decimal(r[4]), ParseInt(r[5]).value))
  }

  function ReadStatusRows(rs: seq<Record>): Option<seq<StationStatus>>
    decreases |rs|
  {
    if rs == [] then Some([])
    else
      match ReadStatus(rs[0])
      case None => None
      case Some(e) =>
        match ReadStatusRows(rs[1..])
        case None => None
        case Some(es) => Some([e] + es)
  }

  function ReadInformationRows(rs: seq<Record>): Option<seq<StationInformation>>
    decreases |rs|
  {
    if rs == [] then Some([])
    else
      match ReadInformation(rs[0])
      case None => None
      case Some(e) =>
        match ReadInformationRows(rs[1..])
        case None => None
        case Some(es) => Some([e] + es)
  }

  /** Reads an exported status file: the header must match, then one entity per record. */
  function ReadStatusesCsv(text: string): Option<seq<StationStatus>> {
    match ReadRecords(text)
    case None => None
    case Some(records) =>
      if records == [] then Some([])
      else if records[0] != STATUS_COLUMNS then None
      else ReadStatusRows(records[1..])
  }

  function ReadInformationCsv(text: string): Option<seq<StationInformation>> {
    match ReadRecords(text)
    case None => None
    case Some(records) =>
      if records == [] then Some([])
      else if records[0] != INFORMATION_COLUMNS then None
      else ReadInformationRows(records[1..])
  }

  /** One step of reading status rows: a readable head record before readable rows. */
  lemma ReadStatusRowsStep(rs: seq<Record>, e: StationStatus, es: seq<StationStatus>)
    requires rs != [] && ReadStatus(rs[0]) == Some(e) && ReadStatusRows(rs[1..]) == Some(es)
    ensures ReadStatusRows(rs) == Some([e] + es)
  {
  }

  lemma ReadInformationRowsStep(rs: seq<Record>, e: StationInformation, es: seq<StationInformation>)
    requires rs != [] && ReadInformation(rs[0]) == Some(e) && ReadInformationRows(rs[1..]) == Some(es)
    ensures ReadInformationRows(rs) == Some([e] + es)
  {
  }

  /** One record per status entity, in order: reading the rows back gives the entities. */
  lemma {:induction false} StatusRowsRoundTrip(es: seq<StationStatus>)
    ensures ReadStatusRows(StatusRecords(es)) == Some(es)
    decreases |es|
  {
    if es != [] {
      StatusRowsRoundTrip(es[1..]);
      ReadStatusRowsStep(StatusRecords(es), es[0], es[1..]);
      assert [es[0]] + es[1..] == es;
    }
  }

  /** One record per information entity, in order. */
  lemma {:induction false} InformationRowsRoundTrip(es: seq<StationInformation>)
    ensures ReadInformationRows(InformationRecords(es)) == Some(es)
    decreases |es|
  {
    if es != [] {
      InformationRowsRoundTrip(es[1..]);
      ReadInformationRowsStep(InformationRecords(es), es[0], es[1..]);
      assert [es[0]] + es[1..] == es;
    }
  }

  /** Serialising status rows and reading the file back gives the same rows, field for field. */
  lemma StatusesCsvRoundTrip(es: seq<StationStatus>)
    ensures ReadStatusesCsv(StatusesCsv(es)) == Some(es)
  {
    var rows := StatusRecords(es);
    if rows != [] {
      assert Layout(STATUS_COLUMNS, rows)[1..] == rows;
      StatusRowsRoundTrip(es);
    }
  }

  lemma InformationCsvRoundTrip(es: seq<StationInformation>)
    ensures ReadInformationCsv(InformationCsv(es)) == Some(es)
  {
    var rows := InformationRecords(es);
    if rows != [] {
      assert Layout(INFORMATION_COLUMNS, rows)[1..] == rows;
      InformationRowsRoundTrip(es);
    }
  }
}
