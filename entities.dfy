/**
 * The two snapshot tables' row types, transcribed from the ORM entity
 * declarations, and their composite primary key `(updated_time, station_id)`.
 */
module Entities {
  import opened Text

  /** A `decimal` column value (latitude, longitude), carried as the text the database returns. */
  datatype Decimal = Decimal(text: string)

  /** The composite primary key shared by both tables. */
  datatype Key = Key(updated_time: int, station_id: string)

  /** One observation of a station's live state; fields in declaration order. */
  datatype StationStatus = StationStatus(
    updated_time: int,
    station_id: string,
    num_bikes_available: int,
    num_bikes_disabled: int,
    num_docks_available: int,
    is_installed: int,
    is_renting: int,
    is_returning: int,
    last_reported: int)

  /** One observation of a station's metadata; fields in declaration order. */
  datatype StationInformation = StationInformation(
    updated_time: int,
    station_id: string,
    name: string,
    lat: Decimal,
    lon: Decimal,
    capacity: int)

  function StatusKey(s: StationStatus): Key {
    Key(s.updated_time, s.station_id)
  }

  function InformationKey(s: StationInformation): Key {
    Key(s.updated_time, s.station_id)
  }

  /** `ORDER BY updated_time ASC, station_id ASC`. */
  predicate KeyLess(a: Key, b: Key) {
    a.updated_time < b.updated_time
    || (a.updated_time == b.updated_time && StrLess(a.station_id, b.station_id))
  }

  lemma KeyLessIrreflexive(a: Key)
    ensures !KeyLess(a, a)
  {
    StrLessIrreflexive(a.station_id);
  }

  lemma KeyLessTransitive(a: Key, b: Key, c: Key)
    requires KeyLess(a, b) && KeyLess(b, c)
    ensures KeyLess(a, c)
  {
    if a.updated_time == b.updated_time == c.updated_time {
      StrLessTransitive(a.station_id, b.station_id, c.station_id);
    }
  }

  /** Distinct keys are always ordered one way or the other. */
  lemma KeyLessTotal(a: Key, b: Key)
    requires a != b
    ensures KeyLess(a, b) || KeyLess(b, a)
  {
    if a.updated_time == b.updated_time {
      StrLessTotal(a.station_id, b.station_id);
    }
  }

  lemma KeyLessAsymmetric(a: Key, b: Key)
    requires KeyLess(a, b)
    ensures !KeyLess(b, a)
  {
    if a.updated_time == b.updated_time {
      StrLessAsymmetric(a.station_id, b.station_id);
    }
  }
}
