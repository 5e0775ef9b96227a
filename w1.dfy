/**
 * The 1-Wire producer of housesensor_w1.c: which devices are DS18x20
 * thermometers, how a temperature is read out of the kernel's w1_slave text,
 * and when the devices registered under driver "w1" are scanned.
 *
 * The file system is an input: `files` maps the path of each w1_slave file
 * that opens to its text. The clock is `now`, and `logOpens` says whether the
 * CSV log can be opened when a value is stored.
 */
module W1 {
  import opened Maybe
  import opened Text
  import opened Snprintf
  import opened Store
  import opened Ring
  import opened Archive
  import opened Db
  import opened W1Sample

  /** The default ScanPeriod, in seconds. */
  const DefaultPeriod := 10
  /** The smallest ScanPeriod the option may set. */
  const MinPeriod := 5

  /** What a stored sample changes in the database: the fields housesensor_db_set writes. */
  datatype Tick = Tick(sensors: seq<Sensor>, added: seq<Event>, csv: seq<string>, sched: Sched)

  ghost function TickOf(db: SensorDb): Tick
    reads db, db.events
  {
    Tick(db.sensors, db.events.added, db.csv, db.sched)
  }

  /** housesensor_db_set("w1", id, value, "Celsius") on those fields. */
  function Stored(t: Tick, id: string, value: string, now: int, logOpens: bool): (r: Tick)
    ensures |r.sensors| == |t.sensors| && SameShape(t.sensors, r.sensors)
  {
    match Lookup(t.sensors, "w1", id, 0)
    case None => t
    case Some(i) =>
      var ss := t.sensors[i := Updated(t.sensors[i], value, Some("Celsius"), now)];
      var added := t.added + [Event(Some(i), now, ss[i].value)];
      if t.sched.logOpen || logOpens then
        Tick(ss, added, t.csv + [CsvLine(now, ss[i], value)], t.sched.(logOpen := true, lastWrite := now))
      else Tick(ss, added, t.csv, t.sched)
  }

  /** ReadDevice on the fields it may change. */
  function ReadOne(t: Tick, id: string, files: map<string, string>, now: int, logOpens: bool): (r: Tick)
    ensures |r.sensors| == |t.sensors| && SameShape(t.sensors, r.sensors)
  {
    match SampleAt(files, id)
    case None => t
    case Some(v) => Stored(t, id, v, now, logOpens)
  }

  /** One scan: ReadDevice on each id, in order. */
  function ScanAll(t: Tick, ids: seq<string>, files: map<string, string>, now: int, logOpens: bool): (r: Tick)
    ensures |r.sensors| == |t.sensors| && SameShape(t.sensors, r.sensors)
  {
    if ids == [] then t
    else
      var before := ScanAll(t, ids[..|ids| - 1], files, now, logOpens);
      ReadOne(before, ids[|ids| - 1], files, now, logOpens)
  }

  /** What the scan lemmas say of one Tick r grown from t: records of other drivers kept, events appended for "w1" records only. */
  predicate OnlyW1(t: Tick, r: Tick)
  {
    && |r.sensors| == |t.sensors|
    && (forall k | 0 <= k < |t.sensors| && t.sensors[k].driver != "w1" :: r.sensors[k] == t.sensors[k])
    && |t.added| <= |r.added| && r.added[..|t.added|] == t.added
    && (forall k | |t.added| <= k < |r.added| ::
          r.added[k].sensor.Some? && r.added[k].sensor.value < |t.sensors|
          && t.sensors[r.added[k].sensor.value].driver == "w1")
  }

  /** Reading one device changes at most its own "w1" record and adds at most one event. */
  lemma ReadOneTouchesOnlyW1(t: Tick, id: string, files: map<string, string>, now: int, logOpens: bool)
    ensures OnlyW1(t, ReadOne(t, id, files, now, logOpens))
    ensures |ReadOne(t, id, files, now, logOpens).added| <= |t.added| + 1
  {
    var r := ReadOne(t, id, files, now, logOpens);
    if r != t {
      var i := Lookup(t.sensors, "w1", id, 0).value;
      assert r.added == t.added + [Event(Some(i), now, r.sensors[i].value)];
      assert r.added[..|t.added|] == t.added;
    }
  }

  /** Growing twice keeps records of other drivers and appends only "w1" events. */
  lemma OnlyW1Trans(a: Tick, b: Tick, c: Tick)
    requires OnlyW1(a, b) && OnlyW1(b, c) && SameShape(a.sensors, b.sensors)
    ensures OnlyW1(a, c)
  {
    assert c.added[..|a.added|] == c.added[..|b.added|][..|a.added|];
    forall k | |a.added| <= k < |c.added|
      ensures c.added[k].sensor.Some? && c.added[k].sensor.value < |a.sensors|
              && a.sensors[c.added[k].sensor.value].driver == "w1"
    {
      if k < |b.added| {
        assert c.added[k] == c.added[..|b.added|][k] == b.added[k];
      }
    }
  }

  /** A scan changes only records of driver "w1", every event it adds names one of them, and it adds at most one per device. */
  lemma {:induction false} ScanTouchesOnlyW1(t: Tick, ids: seq<string>, files: map<string, string>, now: int, logOpens: bool)
    ensures OnlyW1(t, ScanAll(t, ids, files, now, logOpens))
    ensures |ScanAll(t, ids, files, now, logOpens).added| <= |t.added| + |ids|
  {
    if ids == [] {
      assert t.added[..|t.added|] == t.added;
    } else {
      var init := ids[..|ids| - 1];
      var before := ScanAll(t, init, files, now, logOpens);
      ScanTouchesOnlyW1(t, init, files, now, logOpens);
      ReadOneTouchesOnlyW1(before, ids[|ids| - 1], files, now, logOpens);
      OnlyW1Trans(t, before, ScanAll(t, ids, files, now, logOpens));
    }
  }

  /** Two updates that each keep the shape of the table keep it together. */
  lemma SameShapeTrans(a: seq<Sensor>, b: seq<Sensor>, c: seq<Sensor>)
    requires SameShape(a, b) && SameShape(b, c)
    ensures SameShape(a, c)
  {
  }

  /** ReadDevice: read the device's w1_slave file and store its temperature, if it gives one. */
  method ReadDevice(db: SensorDb, id: string, files: map<string, string>, now: int, logOpens: bool)
    requires db.Valid()
    modifies db, db.events, db.events.slots
    ensures db.Valid()
    ensures TickOf(db) == ReadOne(old(TickOf(db)), id, files, now, logOpens)
    ensures db.locations == old(db.locations) && db.options == old(db.options)
    ensures db.driverCursor == old(db.driverCursor) && db.commands == old(db.commands)
  {
    ghost var t := TickOf(db);
    var sample := ReadSample(id, files);
    if sample.Some? {
      db.Set("w1", id, sample.value, Some("Celsius"), now, logOpens);
      SetIsStored(t, TickOf(db), id, sample.value, now, logOpens);
    }
  }

  /** The fields housesensor_db_set promises to leave are those Stored computes. */
  lemma SetIsStored(t: Tick, r: Tick, id: string, value: string, now: int, logOpens: bool)
    requires Lookup(t.sensors, "w1", id, 0).None? ==> r == t
    requires Lookup(t.sensors, "w1", id, 0).Some? ==>
               var i := Lookup(t.sensors, "w1", id, 0).value;
               var logged := t.sched.logOpen || logOpens;
               && r.sensors == t.sensors[i := Updated(t.sensors[i], value, Some("Celsius"), now)]
               && r.sched == (if logged then t.sched.(logOpen := true, lastWrite := now) else t.sched)
               && r.csv == t.csv + (if logged then [CsvLine(now, r.sensors[i], value)] else [])
               && r.added == t.added + [Event(Some(i), now, r.sensors[i].value)]
    ensures r == Stored(t, id, value, now, logOpens)
  {
  }

  /** ScanPeriod after housesensor_w1_initialize, given the option's value if any. */
  function PeriodFrom(option: Option<string>, period: int): (r: int)
    ensures option.None? ==> r == period
    ensures option.Some? ==> r >= MinPeriod && (Atoi(option.value) >= MinPeriod ==> r == Atoi(option.value))
    ensures option.Some? && Atoi(option.value) <= MinPeriod ==> r == MinPeriod
  {
    match option
    case None => period
    case Some(v) => if Atoi(v) <= MinPeriod then MinPeriod else Atoi(v)
  }

  /** A period of 5 seconds or more written in decimal is taken as it is; a shorter one becomes 5. */
  lemma PeriodOfDecimal(n: int, period: int)
    ensures PeriodFrom(Some(Dec(n)), period) == if n < MinPeriod then MinPeriod else n
  {
    AtoiDec(n);
  }

  /** A scan is due once ScanPeriod seconds have passed since the last one. */
  predicate Due(lastScan: int, period: int, now: int)
  {
    now >= lastScan + period
  }

  /**
   * Where the scan loop stands: `done` read, `device` the one the cursor
   * gave last, and together with what the cursor has still to give they
   * make `all`; the fields ReadDevice changes are those of reading `done`.
   */
  ghost predicate Scanning(db: SensorDb, start: Tick, all: seq<string>, done: seq<string>, device: Option<string>,
                           files: map<string, string>, now: int, logOpens: bool)
    reads db, db.events, db.events.slots
  {
    && db.Valid()
    && SameShape(start.sensors, db.sensors)
    && TickOf(db) == ScanAll(start, done, files, now, logOpens)
    && match device
       case Some(d) => all == done + ([d] + DevicesFrom(db.sensors, "w1", db.driverCursor))
       case None => all == done
  }

  /** Scanning between the read and the cursor move: `done` read, the cursor still to give the rest of `all`. */
  ghost predicate Read(db: SensorDb, start: Tick, all: seq<string>, done: seq<string>,
                       files: map<string, string>, now: int, logOpens: bool)
    reads db, db.events, db.events.slots
  {
    && db.Valid()
    && SameShape(start.sensors, db.sensors)
    && TickOf(db) == ScanAll(start, done, files, now, logOpens)
    && all == done + DevicesFrom(db.sensors, "w1", db.driverCursor)
  }

  /** Reading one more device extends the scan by that device. */
  lemma ScanAllSnoc(t: Tick, done: seq<string>, d: string, files: map<string, string>, now: int, logOpens: bool)
    ensures ScanAll(t, done + [d], files, now, logOpens) == ReadOne(ScanAll(t, done, files, now, logOpens), d, files, now, logOpens)
  {
    assert (done + [d])[..|done|] == done;
  }

  /** The first half of a turn of the scan loop: read the device the cursor gave. */
  method ReadStep(db: SensorDb, d: string, ghost start: Tick, ghost all: seq<string>, ghost done: seq<string>,
                  files: map<string, string>, now: int, logOpens: bool)
    requires Scanning(db, start, all, done, Some(d), files, now, logOpens)
    modifies db, db.events, db.events.slots
    ensures Read(db, start, all, done + [d], files, now, logOpens)
    ensures db.locations == old(db.locations) && db.options == old(db.options) && db.commands == old(db.commands)
  {
    ghost var before := db.sensors;
    ghost var rest := DevicesFrom(db.sensors, "w1", db.driverCursor);
    Regroup3(done, [d], rest);
    ReadDevice(db, d, files, now, logOpens);
    DevicesShape(before, db.sensors, "w1", db.driverCursor);
    SameShapeTrans(start.sensors, before, db.sensors);
    ScanAllSnoc(start, done, d, files, now, logOpens);
  }

  /** One turn of the scan loop: read the device the cursor gave, then move the cursor on. */
  method ScanStep(db: SensorDb, d: string, ghost start: Tick, ghost all: seq<string>, ghost done: seq<string>,
                  files: map<string, string>, now: int, logOpens: bool) returns (next: Option<string>)
    requires Scanning(db, start, all, done, Some(d), files, now, logOpens)
    modifies db, db.events, db.events.slots
    ensures Scanning(db, start, all, done + [d], next, files, now, logOpens)
    ensures db.locations == old(db.locations) && db.options == old(db.options) && db.commands == old(db.commands)
  {
    ReadStep(db, d, start, all, done, files, now, logOpens);
    next := db.DeviceNext("w1");
    assert next.None? ==> all == done + [d] + [];
  }

  /** The loop of housesensor_w1_background: ReadDevice on each device of driver "w1", through the device cursor. */
  method Scan(db: SensorDb, now: int, files: map<string, string>, logOpens: bool)
    requires db.Valid()
    modifies db, db.events, db.events.slots
    ensures db.Valid()
    ensures TickOf(db) == ScanAll(old(TickOf(db)), DevicesFrom(old(db.sensors), "w1", 0), files, now, logOpens)
    ensures db.locations == old(db.locations) && db.options == old(db.options) && db.commands == old(db.commands)
  {
    ghost var start := TickOf(db);
    ghost var all := DevicesFrom(db.sensors, "w1", 0);
    ghost var done: seq<string> := [];
    var device := db.DeviceFirst("w1");
    while device.Some?
      invariant Scanning(db, start, all, done, device, files, now, logOpens)
      invariant db.locations == old(db.locations) && db.options == old(db.options)
      invariant db.commands == old(db.commands)
      decreases |all| - |done|
    {
      var d := device.value;
      device := ScanStep(db, d, start, all, done, files, now, logOpens);
      done := done + [d];
    }
    assert done + [] == done;
  }

  /** The statics of housesensor_w1.c: ScanPeriod and background's LastScan. */
  class Scanner {
    var scanPeriod: int
    var lastScan: int

    ghost predicate Valid()
      reads this
    {
      scanPeriod >= MinPeriod
    }

    /** The initial statics: a 10-second period, no scan yet. */
    constructor ()
      ensures Valid() && scanPeriod == DefaultPeriod && lastScan == 0
    {
      scanPeriod := DefaultPeriod;
      lastScan := 0;
    }

    /** housesensor_w1_initialize: the option "w1.scan.period", when set, gives the period, at least 5. */
    method Initialize(db: SensorDb)
      requires Valid() && db.Valid()
      modifies this`scanPeriod
      ensures Valid()
      ensures scanPeriod == PeriodFrom(FindOption(db.options, "w1.scan.period", 0), old(scanPeriod))
    {
      var period := db.Option("w1.scan.period");
      if period.Some? {
        scanPeriod := Atoi(period.value);
        if scanPeriod <= MinPeriod {
          scanPeriod := MinPeriod;
        }
      }
    }

    /**
     * housesensor_w1_background: when a scan is due, read every device of
     * driver "w1" once, in the order of the sensor table, then remember the
     * time; otherwise change nothing.
     */
    method Background(db: SensorDb, now: int, files: map<string, string>, logOpens: bool)
      requires Valid() && db.Valid()
      modifies this`lastScan, db, db.events, db.events.slots
      ensures Valid() && db.Valid()
      ensures !Due(old(lastScan), scanPeriod, now) ==>
                lastScan == old(lastScan) && TickOf(db) == old(TickOf(db)) && db.driverCursor == old(db.driverCursor)
      ensures Due(old(lastScan), scanPeriod, now) ==>
                lastScan == now
                && TickOf(db) == ScanAll(old(TickOf(db)), DevicesFrom(old(db.sensors), "w1", 0), files, now, logOpens)
      ensures db.locations == old(db.locations) && db.options == old(db.options) && db.commands == old(db.commands)
    {
      if now >= lastScan + scanPeriod {
        Scan(db, now, files, logOpens);
        lastScan := now;
      }
    }
  }
}
