/**
 * The ingestion service: find the two sub-feeds in the GBFS manifest, turn each
 * sub-feed payload into a batch of snapshot rows stamped with the payload's own
 * `last_updated`, and save each batch into its table.
 */
module Fetcher {
  import opened Outcomes
  import opened Entities
  import opened Store

  const STATION_INFORMATION := "station_information"
  const STATION_STATUS := "station_status"

  /** What reading `.url` of a feed that `find` did not return throws. */
  const MISSING_FEED_ERROR := "TypeError: Cannot read properties of undefined (reading 'url')"

  /** One entry of the manifest's `data.en.feeds`. */
  datatype Feed = Feed(name: string, url: string)

  /** The GBFS manifest. */
  datatype Gbfs = Gbfs(last_updated: int, ttl: int, feeds: seq<Feed>)

  /**
   * One station of the `station_status` payload. `updated_time` stands for a
   * property of that name the payload might carry besides the declared ones.
   */
  datatype StatusEntry = StatusEntry(
    station_id: string,
    num_bikes_available: int,
    num_bikes_disabled: int,
    num_docks_available: int,
    is_installed: int,
    is_renting: int,
    is_returning: int,
    last_reported: int,
    updated_time: Option<int>)

  /** The `station_status` payload: `last_updated`, `ttl` and `data.stations`. */
  datatype StationsStatuses = StationsStatuses(last_updated: int, ttl: int, stations: seq<StatusEntry>)

  /** One station of the `station_information` payload; `updated_time` as for `StatusEntry`. */
  datatype InformationEntry = InformationEntry(
    station_id: string,
    name: string,
    lat: Decimal,
    lon: Decimal,
    capacity: int,
    updated_time: Option<int>)

  /** The `station_information` payload. */
  datatype StationsInformation = StationsInformation(last_updated: int, ttl: int, stations: seq<InformationEntry>)

  /** `gbfs.data.en.feeds.find((feed) => feed.name == feedName)`. */
  function FindFeed(gbfs: Gbfs, feedName: string): (r: Option<Feed>)
    ensures r.Some? ==> r.value.name == feedName
    ensures r.Some? ==>
      exists i :: (0 <= i < |gbfs.feeds| && gbfs.feeds[i] == r.value
                   && forall j :: 0 <= j < i ==> gbfs.feeds[j].name != feedName)
    ensures r.None? <==> forall i :: 0 <= i < |gbfs.feeds| ==> gbfs.feeds[i].name != feedName
    decreases |gbfs.feeds|
  {
    if gbfs.feeds == [] then None
    else if gbfs.feeds[0].name == feedName then Some(gbfs.feeds[0])
    else
      var r := FindFeed(gbfs.(feeds := gbfs.feeds[1..]), feedName);
      if r.Some? then
        var i :| 0 <= i < |gbfs.feeds| - 1 && gbfs.feeds[1..][i] == r.value
          && forall j :: 0 <= j < i ==> gbfs.feeds[1..][j].name != feedName;
        assert gbfs.feeds[i + 1] == r.value;
        assert forall j :: 0 <= j < i + 1 ==> gbfs.feeds[j].name != feedName by {
          forall j | 0 <= j < i + 1
            ensures gbfs.feeds[j].name != feedName
          {
            if j > 0 { assert gbfs.feeds[j] == gbfs.feeds[1..][j - 1]; }
          }
        }
        r
      else
        assert forall i :: 0 < i < |gbfs.feeds| ==> gbfs.feeds[i] == gbfs.feeds[1..][i - 1];
        r
  }

  /** `{ ...station, updated_time }` for a status entry: a copy of the entry, stamped with `t`. */
  ghost predicate StampedStatus(e: StationStatus, s: StatusEntry, t: int) {
    && e.updated_time == t
    && e.station_id == s.station_id
    && e.num_bikes_available == s.num_bikes_available
    && e.num_bikes_disabled == s.num_bikes_disabled
    && e.num_docks_available == s.num_docks_available
    && e.is_installed == s.is_installed
    && e.is_renting == s.is_renting
    && e.is_returning == s.is_returning
    && e.last_reported == s.last_reported
  }

  /** `{ ...station, updated_time }` for an information entry. */
  ghost predicate StampedInformation(e: StationInformation, s: InformationEntry, t: int) {
    && e.updated_time == t
    && e.station_id == s.station_id
    && e.name == s.name
    && e.lat == s.lat
    && e.lon == s.lon
    && e.capacity == s.capacity
  }

  /**
   * The batch `storeStationsStatuses` saves: one entity per station, in payload
   * order, each a copy of its entry whose `updated_time` is the payload's
   * `last_updated` (the override follows the spread, so it wins).
   */
  function StatusEntities(data: StationsStatuses): (r: seq<StationStatus>)
    ensures |r| == |data.stations|
    ensures forall i :: 0 <= i < |r| ==> StampedStatus(r[i], data.stations[i], data.last_updated)
  {
    seq(|data.stations|, i requires 0 <= i < |data.stations| =>
      var s := data.stations[i];
      StationStatus(data.last_updated, s.station_id, s.num_bikes_available, s.num_bikes_disabled,
                    s.num_docks_available, s.is_installed, s.is_renting, s.is_returning, s.last_reported))
  }

  /** The batch `storeStationsInformation` saves. */
  function InformationEntities(data: StationsInformation): (r: seq<StationInformation>)
    ensures |r| == |data.stations|
    ensures forall i :: 0 <= i < |r| ==> StampedInformation(r[i], data.stations[i], data.last_updated)
  {
    seq(|data.stations|, i requires 0 <= i < |data.stations| =>
      var s := data.stations[i];
      StationInformation(data.last_updated, s.station_id, s.name, s.lat, s.lon, s.capacity))
  }

  /**
   * Every row of a status batch is keyed by the payload's timestamp and its own
   * station, so all of them share one `updated_time`, whatever the local clock.
   */
  lemma StatusBatchKeys(data: StationsStatuses)
    ensures forall i :: 0 <= i < |data.stations| ==>
      StatusKey(StatusEntities(data)[i]) == Key(data.last_updated, data.stations[i].station_id)
  {
  }

  lemma InformationBatchKeys(data: StationsInformation)
    ensures forall i :: 0 <= i < |data.stations| ==>
      InformationKey(InformationEntities(data)[i]) == Key(data.last_updated, data.stations[i].station_id)
  {
  }

  /** The batch depends on the payload's `last_updated` and `stations` only (not `ttl`). */
  lemma StatusBatchDeterministic(a: StationsStatuses, b: StationsStatuses)
    requires a.last_updated == b.last_updated && a.stations == b.stations
    ensures StatusEntities(a) == StatusEntities(b)
  {
  }

  lemma InformationBatchDeterministic(a: StationsInformation, b: StationsInformation)
    requires a.last_updated == b.last_updated && a.stations == b.stations
    ensures InformationEntities(a) == InformationEntities(b)
  {
  }

  /**
   * Two cycles that observe the same status payload, one after the other, leave
   * the table as one of them alone would.
   */
  lemma OverlappingStatusCyclesCollapse(rows: map<Key, StationStatus>, data: StationsStatuses)
    ensures var batch := StatusEntities(data);
      Upsert(Upsert(rows, batch, StatusKey), batch, StatusKey) == Upsert(rows, batch, StatusKey)
  {
    UpsertIdempotent(rows, StatusEntities(data), StatusKey);
  }

  lemma OverlappingInformationCyclesCollapse(rows: map<Key, StationInformation>, data: StationsInformation)
    ensures var batch := InformationEntities(data);
      Upsert(Upsert(rows, batch, InformationKey), batch, InformationKey) == Upsert(rows, batch, InformationKey)
  {
    UpsertIdempotent(rows, InformationEntities(data), InformationKey);
  }

  /** Which of the two sub-feed requests settles first within `forkJoin`. */
  datatype Settlement = InformationFirst | StatusesFirst

  /** What the subscriber of one cycle sees: `complete`, or `error` with the error. */
  datatype CycleReport = Completed | Failed(error: string)

  /** The payloads that reach their store method during one cycle, and the cycle's report. */
  datatype CyclePlan = CyclePlan(
    information: Option<StationsInformation>,
    statuses: Option<StationsStatuses>,
    report: CycleReport)

  /**
   * `forkJoin` of the two sub-feed requests. A response arriving first is handed
   * to its store method at once; an error arriving first fails the join and
   * cancels the other request, so that one is never stored.
   */
  function Join(information: Result<StationsInformation>, statuses: Result<StationsStatuses>,
                settlement: Settlement): (r: CyclePlan)
    ensures r.report == Completed <==> information.Ok? && statuses.Ok?
    ensures r.report == Completed ==> r.information.Some? && r.statuses.Some?
    ensures r.information.Some? ==> information == Ok(r.information.value)
    ensures r.statuses.Some? ==> statuses == Ok(r.statuses.value)
    ensures r.report.Failed? ==> information == Err(r.report.error) || statuses == Err(r.report.error)
    ensures r.information.Some? <==> information.Ok? && (statuses.Ok? || settlement == InformationFirst)
    ensures r.statuses.Some? <==> statuses.Ok? && (information.Ok? || settlement == StatusesFirst)
    ensures r.report.Failed? ==>
      r.report.error == if information.Err? && (statuses.Ok? || settlement == InformationFirst)
                        then information.error else statuses.error
  {
    match (information, statuses)
    case (Ok(i), Ok(s)) => CyclePlan(Some(i), Some(s), Completed)
    case (Ok(i), Err(e)) =>
      CyclePlan(if settlement == InformationFirst then Some(i) else None, None, Failed(e))
    case (Err(e), Ok(s)) =>
      CyclePlan(None, if settlement == StatusesFirst then Some(s) else None, Failed(e))
    case (Err(e1), Err(e2)) =>
      CyclePlan(None, None, Failed(if settlement == InformationFirst then e1 else e2))
  }

  /**
   * One `fetchData` cycle on the responses it receives: the manifest, the
   * sub-feed GET for each URL, and which sub-feed settles first.
   */
  function Cycle(manifest: Result<Gbfs>,
                 getInformation: string -> Result<StationsInformation>,
                 getStatuses: string -> Result<StationsStatuses>,
                 settlement: Settlement): (r: CyclePlan)
    ensures (r.information.Some? || r.statuses.Some?) ==> UrlsResolved(manifest)
    ensures manifest.Err? ==> r == CyclePlan(None, None, Failed(manifest.error))
    ensures manifest.Ok? && !UrlsResolved(manifest) ==> r == CyclePlan(None, None, Failed(MISSING_FEED_ERROR))
  {
    match manifest
    case Err(e) => CyclePlan(None, None, Failed(e))
    case Ok(gbfs) =>
      var statusesFeed := FindFeed(gbfs, STATION_STATUS);
      var informationFeed := FindFeed(gbfs, STATION_INFORMATION);
      if informationFeed.None? || statusesFeed.None? then CyclePlan(None, None, Failed(MISSING_FEED_ERROR))
      else Join(getInformation(informationFeed.value.url), getStatuses(statusesFeed.value.url), settlement)
  }

  /** Both sub-feed URLs were found in a manifest that was fetched. */
  predicate UrlsResolved(manifest: Result<Gbfs>) {
    manifest.Ok? && FindFeed(manifest.value, STATION_INFORMATION).Some?
    && FindFeed(manifest.value, STATION_STATUS).Some?
  }

  /**
   * Nothing is stored in a cycle unless the manifest was fetched and named both
   * sub-feeds; otherwise the error goes to the subscriber's error handler.
   */
  lemma NothingStoredUnlessBothUrlsResolved(manifest: Result<Gbfs>,
      getInformation: string -> Result<StationsInformation>,
      getStatuses: string -> Result<StationsStatuses>, settlement: Settlement)
    ensures var plan := Cycle(manifest, getInformation, getStatuses, settlement);
      !UrlsResolved(manifest) ==> plan.information.None? && plan.statuses.None? && plan.report.Failed?
  {
  }

  /**
   * What is stored is exactly what was fetched from the URL the manifest names,
   * and the cycle completes iff both sub-feeds were fetched, in which case both are stored.
   */
  lemma CycleStoresFetchedPayloads(manifest: Result<Gbfs>,
      getInformation: string -> Result<StationsInformation>,
      getStatuses: string -> Result<StationsStatuses>, settlement: Settlement)
    ensures var plan := Cycle(manifest, getInformation, getStatuses, settlement);
      && (plan.information.Some? ==>
            (UrlsResolved(manifest)
             && getInformation(FindFeed(manifest.value, STATION_INFORMATION).value.url) == Ok(plan.information.value)))
      && (plan.statuses.Some? ==>
            (UrlsResolved(manifest)
             && getStatuses(FindFeed(manifest.value, STATION_STATUS).value.url) == Ok(plan.statuses.value)))
      && (plan.report == Completed <==> plan.information.Some? && plan.statuses.Some?)
      && ((UrlsResolved(manifest)
           && getInformation(FindFeed(manifest.value, STATION_INFORMATION).value.url).Ok?
           && getStatuses(FindFeed(manifest.value, STATION_STATUS).value.url).Ok?)
          ==> plan.report == Completed)
  {
  }

  /**
   * The two sub-feeds are not isolated: when the information request fails
   * before the statuses response arrives, the statuses fetched are not stored.
   */
  lemma InformationFailureCancelsStatuses(manifest: Result<Gbfs>,
      getInformation: string -> Result<StationsInformation>,
      getStatuses: string -> Result<StationsStatuses>)
    requires UrlsResolved(manifest)
    requires getInformation(FindFeed(manifest.value, STATION_INFORMATION).value.url).Err?
    ensures var plan := Cycle(manifest, getInformation, getStatuses, InformationFirst);
      plan.information.None? && plan.statuses.None? && plan.report.Failed?
  {
  }

  /** The ingestion service, holding the two repositories it saves into. */
  class FetcherService {
    const statusRepository: Table<StationStatus>
    const informationRepository: Table<StationInformation>

    ghost predicate Valid()
      reads this, statusRepository, informationRepository
    {
      && statusRepository.Valid() && statusRepository.keyOf == StatusKey
      && informationRepository.Valid() && informationRepository.keyOf == InformationKey
    }

    constructor (statusRepository: Table<StationStatus>, informationRepository: Table<StationInformation>)
      requires statusRepository.Valid() && statusRepository.keyOf == StatusKey
      requires informationRepository.Valid() && informationRepository.keyOf == InformationKey
      ensures Valid()
      ensures this.statusRepository == statusRepository && this.informationRepository == informationRepository
    {
      this.statusRepository := statusRepository;
      this.informationRepository := informationRepository;
    }

    /**
     * `storeStationsStatuses`: build the batch and save it. A rejected save is
     * caught and logged; the method returns normally either way. `logged` is what
     * the log line reports: the number of rows saved, or the error.
     */
    method StoreStationsStatuses(data: StationsStatuses, saveFailure: Option<string>) returns (logged: Result<nat>)
      requires Valid()
      modifies statusRepository
      ensures Valid()
      ensures statusRepository.rows ==
        if saveFailure.None? then Upsert(old(statusRepository.rows), StatusEntities(data), StatusKey)
        else old(statusRepository.rows)
      ensures logged == if saveFailure.None? then Ok(|data.stations|) else Err(saveFailure.value)
    {
      var entities := StatusEntities(data);
      logged := statusRepository.Save(entities, saveFailure);
    }

    /** `storeStationsInformation`, the same for the information table. */
    method StoreStationsInformation(data: StationsInformation, saveFailure: Option<string>) returns (logged: Result<nat>)
      requires Valid()
      modifies informationRepository
      ensures Valid()
      ensures informationRepository.rows ==
        if saveFailure.None? then Upsert(old(informationRepository.rows), InformationEntities(data), InformationKey)
        else old(informationRepository.rows)
      ensures logged == if saveFailure.None? then Ok(|data.stations|) else Err(saveFailure.value)
    {
      var entities := InformationEntities(data);
      logged := informationRepository.Save(entities, saveFailure);
    }

    /**
     * `fetchData`: one cycle. Each payload of the cycle's plan is stored (a
     * failing save is swallowed); the other table is left alone.
     */
    method FetchData(manifest: Result<Gbfs>,
                     getInformation: string -> Result<StationsInformation>,
                     getStatuses: string -> Result<StationsStatuses>,
                     settlement: Settlement,
                     informationSaveFailure: Option<string>,
                     statusSaveFailure: Option<string>) returns (report: CycleReport)
      requires Valid()
      modifies statusRepository, informationRepository
      ensures Valid()
      ensures var plan := Cycle(manifest, getInformation, getStatuses, settlement);
        && report == plan.report
        && informationRepository.rows ==
             (if plan.information.Some? && informationSaveFailure.None?
              then Upsert(old(informationRepository.rows), InformationEntities(plan.information.value), InformationKey)
              else old(informationRepository.rows))
        && statusRepository.rows ==
             (if plan.statuses.Some? && statusSaveFailure.None?
              then Upsert(old(statusRepository.rows), StatusEntities(plan.statuses.value), StatusKey)
              else old(statusRepository.rows))
    {
      var plan := Cycle(manifest, getInformation, getStatuses, settlement);
      if plan.information.Some? {
        var _ := StoreStationsInformation(plan.information.value, informationSaveFailure);
      }
      if plan.statuses.Some? {
        var _ := StoreStationsStatuses(plan.statuses.value, statusSaveFailure);
      }
      report := plan.report;
    }
  }
}
