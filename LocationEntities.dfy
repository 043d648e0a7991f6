/** A location as the app and the server exchange it (`LocationData`), and the
    row of the local `locations` table (`LocationEntity`), which adds three
    sync-bookkeeping fields. Coordinates are carried as exact reals and never
    computed with; times are milliseconds since the epoch. */
module LocationEntities {
  import opened Wrappers

  datatype LocationData = LocationData(
    id: string,
    userId: string,
    name: string,
    description: string,
    latitude: real,
    longitude: real,
    imageUri: Option<string>,
    visibility: string,
    dateAdded: int)

  /** A row of the `locations` table; `id` is its primary key. */
  datatype LocationEntity = LocationEntity(
    id: string,
    userId: string,
    name: string,
    description: string,
    latitude: real,
    longitude: real,
    imageUri: Option<string>,
    visibility: string,
    dateAdded: int,
    isSynced: bool,
    isDeleted: bool,
    lastModified: int)

  /** The constructor with its defaults: a new row is neither synced nor
      deleted, and was last modified at the clock reading `now`. */
  function NewEntity(id: string, userId: string, name: string, description: string,
                     latitude: real, longitude: real, imageUri: Option<string>,
                     visibility: string, dateAdded: int, now: int): (e: LocationEntity)
    ensures !e.isSynced && !e.isDeleted && e.lastModified == now
    ensures e.id == id && e.userId == userId && e.dateAdded == dateAdded && e.visibility == visibility
  {
    LocationEntity(id, userId, name, description, latitude, longitude, imageUri,
                   visibility, dateAdded, false, false, now)
  }

  /** `toLocationData`: forgets the sync bookkeeping. */
  function ToLocationData(e: LocationEntity): (d: LocationData)
    ensures d.id == e.id && d.userId == e.userId && d.name == e.name
    ensures d.description == e.description && d.latitude == e.latitude
    ensures d.longitude == e.longitude && d.imageUri == e.imageUri
    ensures d.visibility == e.visibility && d.dateAdded == e.dateAdded
  {
    LocationData(e.id, e.userId, e.name, e.description, e.latitude, e.longitude,
                 e.imageUri, e.visibility, e.dateAdded)
  }

  /** `toLocationEntity(isSynced)`: a live row carrying `d`, stamped at `now`. */
  function ToLocationEntity(d: LocationData, isSynced: bool, now: int): (e: LocationEntity)
    ensures !e.isDeleted && e.isSynced == isSynced && e.lastModified == now
    ensures e.id == d.id && e.userId == d.userId && e.dateAdded == d.dateAdded
    ensures e.visibility == d.visibility
  {
    LocationEntity(d.id, d.userId, d.name, d.description, d.latitude, d.longitude,
                   d.imageUri, d.visibility, d.dateAdded, isSynced, false, now)
  }

  /** Round trip: converting to a row and back returns the original data,
      whatever the sync flag and the clock. */
  lemma DataRoundTrip(d: LocationData, isSynced: bool, now: int)
    ensures ToLocationData(ToLocationEntity(d, isSynced, now)) == d
  {
  }

  /** The converse round trip keeps everything but the bookkeeping: a row
      rebuilt from its data is the same row with the deletion flag cleared and
      the given sync flag and time. */
  lemma EntityRoundTrip(e: LocationEntity, isSynced: bool, now: int)
    ensures ToLocationEntity(ToLocationData(e), isSynced, now)
         == e.(isSynced := isSynced, isDeleted := false, lastModified := now)
  {
  }

  /** `toLocationData` drops exactly the three bookkeeping fields: two rows map
      to the same data iff they agree on every other field. */
  lemma ToLocationDataForgetsOnlyBookkeeping(e1: LocationEntity, e2: LocationEntity)
    ensures (ToLocationData(e1) == ToLocationData(e2)) <==>
            (e1.(isSynced := false, isDeleted := false, lastModified := 0) ==
             e2.(isSynced := false, isDeleted := false, lastModified := 0))
  {
  }
}
