/**
 * The sensor database of housesensor_db.c as one object: the tables filled
 * from the configuration, the driver enumeration cursor, the event ring, the
 * CSV log and the archival statics. Each public C function is a method here;
 * the clock, localtime, whether a file opens, and the configuration file's
 * lines are parameters, and what the program writes to the CSV log or passes
 * to system() is kept in `csv` and `commands`.
 */
module Db {
  import opened Maybe
  import opened Store
  import opened Ring
  import opened Archive
  import opened Config
  import opened Directives
  import opened Tables

  /** How LoadConfig ends: every line read, or the program exits on one. */
  datatype Outcome = Complete | Exit

  class SensorDb {
    var sensors: seq<Sensor>
    var locations: seq<Location>
    var options: seq<OptionEntry>
    /** SensorDriverCursor: where device_next resumes. */
    var driverCursor: nat
    /** SensorEventLog and SensorEventCursor. */
    const events: EventLog
    /** Whether SensorLog is open, SensorLogLastWrite, SensorLogLastMove and LastHourlyBackup. */
    var sched: Sched
    /** The lines written to the CSV log, oldest first. */
    var csv: seq<string>
    /** The commands given to system(), oldest first. */
    var commands: seq<string>

    ghost function Tabled(): Tables
      reads this`sensors, this`locations, this`options
    {
      Tables(sensors, locations, options)
    }

    ghost predicate Valid()
      reads this`sensors, this`locations, this`options, this`driverCursor, events, events.slots
    {
      && WellFormed(Tabled())
      && driverCursor <= |sensors|
      && events.Valid()
      && (forall i | 0 <= i < Depth :: IsLive(events.slots[i]) ==> events.slots[i].sensor.value < |sensors|)
    }

    /** The statics before housesensor_db_initialize: empty tables, cleared ring, log closed. */
    constructor ()
      ensures Valid() && fresh(events) && fresh(events.slots)
      ensures sensors == [] && locations == [] && options == [] && driverCursor == 0
      ensures sched == Sched(false, 0, 0, 0) && csv == [] && commands == [] && events.added == []
    {
      sensors, locations, options := [], [], [];
      driverCursor := 0;
      events := new EventLog();
      sched := Sched(false, 0, 0, 0);
      csv, commands := [], [];
    }

    /** AddOption: the option table takes one more entry; C does not check its 128 entries. */
    method AddOption(name: string, value: string)
      requires Valid() && |options| < MaxOptions
      modifies this
      ensures Valid() && Tabled() == Apply(old(Tabled()), OptionLine(name, value)).value
      ensures driverCursor == old(driverCursor) && sched == old(sched)
      ensures csv == old(csv) && commands == old(commands)
    {
      options := options + [OptionEntry(name, value)];
    }

    /** AddSensor, with the search of the location table; false when the program exits. */
    method AddSensor(driver: string, device: string, location: string, name: string, unit: string)
      returns (ok: bool)
      requires Valid() && |unit| < UnitSize
      modifies this
      ensures Valid()
      ensures var r := AddRecord(old(Tabled()), driver, device, location, name, unit);
              ok == r.Some? && Tabled() == if ok then r.value else old(Tabled())
      ensures driverCursor == old(driverCursor) && sched == old(sched)
      ensures csv == old(csv) && commands == old(commands)
    {
      var n := |sensors|;
      var group := FindLocation(location);
      ghost var r := AddRecord(Tabled(), driver, device, location, name, unit);
      if group.None? {
        if |locations| >= MaxLocations {
          return false;
        }
        locations := locations + [Location(location, n)];
        sensors := sensors + [Declared(driver, device, location, name, unit, -1)];
      } else {
        var i := group.value;
        sensors := sensors + [Declared(driver, device, location, name, unit, locations[i].first)];
        locations := locations[i := Location(location, n)];
      }
      assert r == Some(Tabled());
      ok := true;
    }

    /** The search of AddSensor: the group of this location in the location table, if it has one. */
    method FindLocation(location: string) returns (group: Option<nat>)
      ensures group == GroupOf(locations, location, 0)
    {
      var i := 0;
      while i < |locations| && locations[i].name != location
        invariant 0 <= i <= |locations|
        invariant GroupOf(locations, location, 0) == GroupOf(locations, location, i)
      {
        i := i + 1;
      }
      if i >= |locations| {
        return None;
      }
      return Some(i);
    }

    /** DecodeLine: split the line and add what it declares; Exit when the program exits. */
    method DecodeLine(buffer: string) returns (out: Outcome)
      requires Valid()
      requires var d := Classify(Words(LinePart(buffer)));
               (d.OptionLine? ==> |options| < MaxOptions) && (d.SensorLine? ==> |d.unit| < UnitSize)
      modifies this
      ensures Valid()
      ensures var r := Apply(old(Tabled()), Classify(Words(LinePart(buffer))));
              (out == Complete <==> r.Some?) && Tabled() == if r.Some? then r.value else old(Tabled())
      ensures driverCursor == old(driverCursor) && sched == old(sched)
      ensures csv == old(csv) && commands == old(commands)
    {
      var split := LineSplit(buffer);
      if split.TooManyTokens? {
        return Exit;
      }
      var token := split.tokens;
      if |token| < 1 {
        return Complete;
      }
      if token[0] == "OPTION" {
        if |token| < 3 {
          return Complete;
        }
        AddOption(token[1], token[2]);
        return Complete;
      }
      if |token| < 4 {
        return Complete;
      }
      var ok := AddSensor(token[0], token[1], token[2], token[3], if |token| >= 5 then token[4] else "");
      out := if ok then Complete else Exit;
    }

    /** The reading loop of LoadConfig: DecodeLine on each buffer fgets returns that is not skipped, in order. */
    method DecodeLines(lines: seq<string>) returns (out: Outcome)
      requires Valid() && Fits(Tabled(), lines)
      modifies this
      ensures Valid()
      ensures var r := Load(old(Tabled()), lines);
              (out == Complete <==> r.Some?) && (r.Some? ==> Tabled() == r.value)
      ensures driverCursor == old(driverCursor) && sched == old(sched)
      ensures csv == old(csv) && commands == old(commands)
    {
      ghost var t0 := Tabled();
      var i := 0;
      while i < |lines|
        invariant 0 <= i <= |lines| && Valid()
        invariant Fits(t0, lines[..i])
        invariant Load(t0, lines[..i]) == Some(Tabled())
        invariant driverCursor == old(driverCursor) && sched == old(sched)
        invariant csv == old(csv) && commands == old(commands)
      {
        var buffer := lines[i];
        FitsPrefix(t0, lines, i + 1);
        LoadStep(t0, lines, i);
        OptionLinesPrefix(lines, i + 1);
        assert |options| == |t0.options| + OptionLines(lines[..i]);
        if !Skipped(buffer) {
          assert Decode(buffer) == Classify(Words(LinePart(buffer)));
          assert Decode(buffer).SensorLine? ==> |Decode(buffer).unit| < UnitSize by {
            assert lines[..i + 1][i] == buffer;
          }
          out := DecodeLine(buffer);
          if out == Exit {
            LoadExit(t0, lines, i + 1);
            return;
          }
        }
        i := i + 1;
      }
      assert lines[..i] == lines;
      out := Complete;
    }

    /**
     * LoadConfig: `config` holds the lines of the configuration file, or None
     * when it cannot be opened, in which case the program exits.
     */
    method LoadConfig(config: Option<seq<string>>) returns (out: Outcome)
      requires Valid() && (config.Some? ==> Fits(Tabled(), config.value))
      modifies this
      ensures Valid()
      ensures config.None? ==> out == Exit && Tabled() == old(Tabled())
      ensures config.Some? ==> var r := Load(old(Tabled()), config.value);
                (out == Complete <==> r.Some?) && (r.Some? ==> Tabled() == r.value)
      ensures driverCursor == old(driverCursor) && sched == old(sched)
      ensures csv == old(csv) && commands == old(commands)
    {
      if config.None? {
        return Exit;
      }
      out := DecodeLines(config.value);
    }

    /** housesensor_db_device_next: the next record of this driver from the cursor on. */
    method DeviceNext(driver: string) returns (device: Option<string>)
      requires Valid()
      modifies this`driverCursor
      ensures Valid()
      ensures match NextOfDriver(sensors, driver, old(driverCursor))
              case Some(i) => device == Some(sensors[i].device) && driverCursor == i + 1
              case None => device == None && driverCursor == old(driverCursor)
      ensures device.Some? ==>
                DevicesFrom(sensors, driver, old(driverCursor)) == [device.value] + DevicesFrom(sensors, driver, driverCursor)
      ensures device.None? ==> DevicesFrom(sensors, driver, old(driverCursor)) == []
    {
      DevicesFromNext(sensors, driver, driverCursor);
      var next := NextRecord(driver, driverCursor);
      if next.Some? {
        driverCursor := next.value + 1;
        device := Some(sensors[next.value].device);
      } else {
        device := None;
      }
    }

    /** The scan of housesensor_db_device_next: the first record of the driver at or after `from`. */
    method NextRecord(driver: string, from: nat) returns (found: Option<nat>)
      requires Valid() && from <= |sensors|
      ensures found == NextOfDriver(sensors, driver, from)
    {
      var i := from;
      while i < |sensors|
        invariant from <= i <= |sensors|
        invariant NextOfDriver(sensors, driver, from) == NextOfDriver(sensors, driver, i)
      {
        if sensors[i].driver == driver {
          return Some(i);
        }
        i := i + 1;
      }
      return None;
    }

    /** housesensor_db_device_first: restart the enumeration of a driver's devices. */
    method DeviceFirst(driver: string) returns (device: Option<string>)
      requires Valid()
      modifies this`driverCursor
      ensures Valid()
      ensures device.Some? ==>
                DevicesFrom(sensors, driver, 0) == [device.value] + DevicesFrom(sensors, driver, driverCursor)
      ensures device.None? ==> DevicesFrom(sensors, driver, 0) == []
    {
      driverCursor := 0;
      device := DeviceNext(driver);
    }

    /** housesensor_db_option: the value of the first option with this name. */
    method Option(name: string) returns (value: Option<string>)
      requires Valid()
      ensures value == FindOption(options, name, 0)
    {
      var i := 0;
      while i < |options|
        invariant 0 <= i <= |options|
        invariant FindOption(options, name, 0) == FindOption(options, name, i)
      {
        if options[i].name == name {
          return Some(options[i].value);
        }
        i := i + 1;
      }
      return None;
    }

    /** The search in housesensor_db_set: the first record of this driver and device. */
    method Find(driver: string, device: string) returns (found: Option<nat>)
      requires Valid()
      ensures found == Lookup(sensors, driver, device, 0)
    {
      var i := 0;
      while i < |sensors|
        invariant 0 <= i <= |sensors|
        invariant Lookup(sensors, driver, device, 0) == Lookup(sensors, driver, device, i)
      {
        if sensors[i].device == device && sensors[i].driver == driver {
          return Some(i);
        }
        i := i + 1;
      }
      return None;
    }

    /**
     * The update of record i in housesensor_db_set: value, unit and time, then
     * the CSV line, opening the log first if it is closed and `logOpens`.
     */
    method Record(i: nat, value: string, unit: Option<string>, now: int, logOpens: bool)
      requires Valid() && i < |sensors|
      modifies this
      ensures Valid()
      ensures sensors == old(sensors)[i := Updated(old(sensors)[i], value, unit, now)]
      ensures var logged := old(sched.logOpen) || logOpens;
              && sched == (if logged then old(sched).(logOpen := true, lastWrite := now) else old(sched))
              && csv == old(csv) + (if logged then [CsvLine(now, sensors[i], value)] else [])
      ensures locations == old(locations) && options == old(options)
      ensures driverCursor == old(driverCursor) && commands == old(commands)
    {
      var s := sensors[i];
      s := s.(value := Truncate(value, ValueSize - 1));
      if unit.Some? && s.unit == "" {
        s := s.(unit := Truncate(unit.value, UnitSize - 1));
      }
      s := s.(timestamp := now);
      assert s == Updated(sensors[i], value, unit, now);
      UpdateKeeps(Tabled(), i, value, unit, now);
      Put(i, s);
      Log(s, value, now, logOpens);
    }

    /** The write of record i in housesensor_db_set, when the tables stay well formed. */
    method Put(i: nat, s: Sensor)
      requires Valid() && i < |sensors| && WellFormed(Tabled().(sensors := sensors[i := s]))
      modifies this`sensors
      ensures Valid() && sensors == old(sensors)[i := s]
    {
      sensors := sensors[i := s];
    }

    /** The log part of housesensor_db_set: open the log if it is closed and `logOpens`, then write the CSV line. */
    method Log(s: Sensor, value: string, now: int, logOpens: bool)
      modifies this`sched, this`csv
      ensures var logged := old(sched.logOpen) || logOpens;
              && sched == (if logged then old(sched).(logOpen := true, lastWrite := now) else old(sched))
              && csv == old(csv) + (if logged then [CsvLine(now, s, value)] else [])
    {
      if !sched.logOpen && logOpens {
        sched := sched.(logOpen := true);
      }
      if sched.logOpen {
        csv := csv + [CsvLine(now, s, value)];
        sched := sched.(lastWrite := now);
      }
    }

    /** SensorEventAdd: the ring records record i's time and a copy of its value. */
    method EventAdd(i: nat)
      requires Valid() && i < |sensors|
      modifies events, events.slots
      ensures Valid()
      ensures var e := Event(Some(i), sensors[i].timestamp, sensors[i].value);
              && events.slots[..] == Written(old(events.slots[..]), old(events.cursor), e)
              && events.cursor == Next(old(events.cursor))
              && events.added == old(events.added) + [e]
    {
      var e := Event(Some(i), sensors[i].timestamp, sensors[i].value);
      ghost var slots, cursor := events.slots[..], events.cursor;
      WrittenBound(slots, cursor, e, |sensors|);
      events.Add(e);
      assert forall j | 0 <= j < Depth :: events.slots[j] == Written(slots, cursor, e)[j];
    }

    /**
     * housesensor_db_set at time `now`; `logOpens` says whether the CSV log
     * can be opened when it is not open yet.
     */
    method Set(driver: string, device: string, value: string, unit: Option<string>, now: int, logOpens: bool)
      requires Valid()
      modifies this, events, events.slots
      ensures Valid() && |sensors| == |old(sensors)|
      ensures Lookup(old(sensors), driver, device, 0).None? ==>
                && sensors == old(sensors) && sched == old(sched) && csv == old(csv)
                && events.slots[..] == old(events.slots[..]) && events.cursor == old(events.cursor)
                && events.added == old(events.added)
      ensures Lookup(old(sensors), driver, device, 0).Some? ==>
                var i := Lookup(old(sensors), driver, device, 0).value;
                var logged := old(sched.logOpen) || logOpens;
                var e := Event(Some(i), now, sensors[i].value);
                && sensors == old(sensors)[i := Updated(old(sensors)[i], value, unit, now)]
                && sched == (if logged then old(sched).(logOpen := true, lastWrite := now) else old(sched))
                && csv == old(csv) + (if logged then [CsvLine(now, sensors[i], value)] else [])
                && events.slots[..] == Written(old(events.slots[..]), old(events.cursor), e)
                && events.cursor == Next(old(events.cursor))
                && events.added == old(events.added) + [e]
      ensures locations == old(locations) && options == old(options)
      ensures driverCursor == old(driverCursor) && commands == old(commands)
    {
      var found := Find(driver, device);
      if found.Some? {
        Record(found.value, value, unit, now, logOpens);
        EventAdd(found.value);
      }
    }

    /** housesensor_db_background; `before` is localtime(now - 3600), `current` localtime(now). */
    method Background(now: int, before: Tm, current: Tm)
      requires Valid()
      modifies this`sched, this`commands
      ensures Valid()
      ensures var (s, b) := Step(old(sched), now, before, current);
              && sched == s
              && (b.None? ==> commands == old(commands))
              && (b.Some? ==> commands == old(commands) + [Command(b.value)])
      ensures Tabled() == old(Tabled()) && driverCursor == old(driverCursor) && csv == old(csv)
    {
      if sched.logOpen && now > sched.lastWrite + 10 {
        sched := sched.(logOpen := false);
        if before.hour == 23 && now > sched.lastMove + 3601 {
          commands := commands + [Command(Backup(Mv, before))];
          sched := sched.(lastMove := now, lastHourly := now);
        } else if now - 3600 > sched.lastHourly {
          commands := commands + [Command(Backup(Cp, current))];
          sched := sched.(lastHourly := now);
        }
      }
    }

    /**
     * housesensor_db_initialize: load the configuration, then, when started in
     * the hour after midnight and yesterday's archive exists, count the daily
     * move as done. `config` is the configuration file's lines (None when it
     * cannot be opened), `yesterday` is localtime(now - 3600), and `openable`
     * holds the files that can be opened.
     */
    method Initialize(config: Option<seq<string>>, now: int, yesterday: Tm, openable: set<string>) returns (out: Outcome)
      requires Valid() && (config.Some? ==> Fits(Tabled(), config.value))
      modifies this
      ensures Valid()
      ensures config.None? ==> out == Exit && Tabled() == old(Tabled())
      ensures config.Some? ==> var r := Load(old(Tabled()), config.value);
                (out == Complete <==> r.Some?) && (r.Some? ==> Tabled() == r.value)
      ensures out == Complete ==> sched == Reconcile(old(sched), now, yesterday, openable)
      ensures driverCursor == old(driverCursor) && csv == old(csv) && commands == old(commands)
    {
      out := LoadConfig(config);
      if out == Exit {
        return;
      }
      if yesterday.hour == 23 && ArchivePath(yesterday) in openable {
        sched := sched.(lastMove := now - 3600 + 3600);
      }
    }
  }
}
