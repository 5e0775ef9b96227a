/**
 * The three JSON views as served by the database object: housesensor_db_latest
 * reads the sensor and location tables, housesensor_db_recent the sensor table
 * and the event ring. The host name, the portal server and the clock are inputs.
 */
module Views {
  import opened Text
  import opened Snprintf
  import opened Store
  import opened Ring
  import opened Db
  import LatestView
  import RecentView

  /** The latest document of the database's current tables. */
  ghost function LatestOf(db: SensorDb, host: string, proxy: string, now: int): string
    reads db, db.events, db.events.slots
    requires db.Valid()
  {
    LatestView.IndexedHeads(db.sensors, db.locations);
    LatestView.LatestDoc(host, proxy, now, db.sensors, db.locations)
  }

  /** housesensor_db_latest: every location with its records, latest declared first. */
  method Latest(db: SensorDb, host: string, proxy: string, now: int) returns (json: string)
    requires db.Valid()
    ensures json == Cap(LatestOf(db, host, proxy, now), LatestView.LatestSize)
  {
    LatestView.IndexedHeads(db.sensors, db.locations);
    json := LatestView.Render(db.sensors, db.locations, host, proxy, now);
  }

  /** The events the recent view shows: the latest Depth-1 added, oldest first. */
  ghost function Shown(db: SensorDb): (r: seq<Event>)
    reads db, db.events, db.events.slots
    requires db.Valid()
    ensures RecentView.Refers(r, |db.sensors|)
    ensures r == Last(db.events.added, Depth - 1)
  {
    RecentView.LiveRefers(Visit(db.events.slots[..], db.events.cursor), |db.sensors|);
    db.events.Recent()
  }

  /** housesensor_db_recent: the last Depth-1 events, oldest first. */
  method Recent(db: SensorDb, host: string, now: int) returns (json: string)
    requires db.Valid()
    ensures json == Cap(RecentView.RecentDoc(host, now, db.sensors, Shown(db)), RecentView.RecentSize)
  {
    json := RecentView.Render(db.sensors, db.events.slots, db.events.cursor, host, now);
  }
}
