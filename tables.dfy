/**
 * What loading the configuration does to the three tables of
 * housesensor_db.c (sensors, locations, options), line by line, as values:
 * the specification that the database object's AddOption, AddSensor,
 * DecodeLine and LoadConfig are proved against.
 */
module Tables {
  import opened Maybe
  import opened Store
  import opened Config
  import opened Directives

  datatype Tables = Tables(sensors: seq<Sensor>, locations: seq<Location>, options: seq<OptionEntry>)

  /** The shape the tables always keep: a right location index within the fixed arrays. */
  predicate WellFormed(t: Tables)
  {
    && Indexed(t.sensors, t.locations)
    && |t.locations| <= MaxLocations
    && |t.options| <= MaxOptions
    && (forall k | 0 <= k < |t.sensors| :: |t.sensors[k].unit| < UnitSize && |t.sensors[k].value| < ValueSize)
  }

  /** A record within the buffers, appended with a right index, keeps the tables well formed. */
  lemma WellFormedAdd(t: Tables, x: Sensor, locs: seq<Location>)
    requires WellFormed(t) && Indexed(t.sensors + [x], locs) && |locs| <= MaxLocations
    requires |x.unit| < UnitSize && |x.value| < ValueSize
    ensures WellFormed(t.(sensors := t.sensors + [x], locations := locs))
  {
  }

  /** The record AddSensor appends: no value yet, time 0, linked to `next`. */
  function Declared(driver: string, device: string, location: string, name: string, unit: string, next: int): Sensor
  {
    Sensor(driver, device, location, name, unit, "", 0, next)
  }

  /**
   * What AddSensor leaves in r: the records and options of t, then the new
   * record with no value and time 0; the location keeps its place in the
   * location table or comes last; its list now starts with the new record.
   */
  predicate Added(t: Tables, r: Tables, driver: string, device: string, location: string, name: string, unit: string)
  {
    && WellFormed(r)
    && r.options == t.options
    && |r.sensors| == |t.sensors| + 1
    && r.sensors[..|t.sensors|] == t.sensors
    && (var x := r.sensors[|t.sensors|];
        && x.driver == driver && x.device == device && x.location == location && x.name == name
        && x.unit == unit && x.value == "" && x.timestamp == 0)
    && (location in Names(t.locations) ==> Names(r.locations) == Names(t.locations))
    && (location !in Names(t.locations) ==> Names(r.locations) == Names(t.locations) + [location])
    && Members(r.sensors, location, |t.sensors| + 1) == [|t.sensors|] + Members(t.sensors, location, |t.sensors|)
  }

  /**
   * AddSensor: the record is appended; an unseen location gets a new group
   * holding it alone, a known one gets it at the front of its list. None
   * when a 65th location would be needed: the program exits.
   */
  function AddRecord(t: Tables, driver: string, device: string, location: string, name: string, unit: string)
    : (r: Option<Tables>)
    requires WellFormed(t) && |unit| < UnitSize
    ensures r.None? <==> location !in Names(t.locations) && |t.locations| >= MaxLocations
    ensures r.Some? ==> Added(t, r.value, driver, device, location, name, unit)
  {
    var n := |t.sensors|;
    GroupOfNames(t.locations, location);
    match GroupOf(t.locations, location, 0)
    case Some(j) =>
      var x := Declared(driver, device, location, name, unit, t.locations[j].first);
      AddKnown(t, x, j);
      Some(t.(sensors := t.sensors + [x], locations := t.locations[j := Location(location, n)]))
    case None =>
      if |t.locations| >= MaxLocations then None
      else
        var x := Declared(driver, device, location, name, unit, -1);
        AddNew(t, x);
        Some(t.(sensors := t.sensors + [x], locations := t.locations + [Location(location, n)]))
  }

  /** A record of a known location goes to the front of that location's list. */
  lemma AddKnown(t: Tables, x: Sensor, j: nat)
    requires WellFormed(t) && |x.unit| < UnitSize && x.value == "" && x.timestamp == 0
    requires GroupOf(t.locations, x.location, 0) == Some(j) && x.next == t.locations[j].first
    ensures var n := |t.sensors|;
            Added(t, t.(sensors := t.sensors + [x], locations := t.locations[j := Location(x.location, n)]),
                  x.driver, x.device, x.location, x.name, x.unit)
  {
    var n := |t.sensors|;
    GroupOfNames(t.locations, x.location);
    IndexedAddKnown(t.sensors, t.locations, x, j);
    NamesKeep(t.locations, j, Location(x.location, n));
    MembersPush(t.sensors, x);
    assert (t.sensors + [x])[..n] == t.sensors;
    WellFormedAdd(t, x, t.locations[j := Location(x.location, n)]);
  }

  /** A record of an unseen location starts a new group of its own, last in the location table. */
  lemma AddNew(t: Tables, x: Sensor)
    requires WellFormed(t) && |x.unit| < UnitSize && x.value == "" && x.timestamp == 0
    requires x.location !in Names(t.locations) && |t.locations| < MaxLocations && x.next == -1
    ensures var n := |t.sensors|;
            Added(t, t.(sensors := t.sensors + [x], locations := t.locations + [Location(x.location, n)]),
                  x.driver, x.device, x.location, x.name, x.unit)
  {
    var n := |t.sensors|;
    IndexedAddNew(t.sensors, t.locations, x);
    MembersPush(t.sensors, x);
    assert (t.sensors + [x])[..n] == t.sensors;
    assert Names(t.locations + [Location(x.location, n)]) == Names(t.locations) + [x.location];
    WellFormedAdd(t, x, t.locations + [Location(x.location, n)]);
  }

  /** The option lines among `lines`: the entries they will need in the option table. */
  function OptionLines(lines: seq<string>): nat
  {
    if lines == [] then 0
    else OptionLines(lines[..|lines| - 1]) + (if Decode(lines[|lines| - 1]).OptionLine? then 1 else 0)
  }

  /** The sensor lines among `lines`: the records they declare. */
  function SensorLines(lines: seq<string>): nat
  {
    if lines == [] then 0
    else SensorLines(lines[..|lines| - 1]) + (if Decode(lines[|lines| - 1]).SensorLine? then 1 else 0)
  }

  /** What C leaves undefined is not asked for: the option table does not overflow and no unit fills its buffer. */
  predicate Fits(t: Tables, lines: seq<string>)
  {
    && |t.options| + OptionLines(lines) <= MaxOptions
    && forall k | 0 <= k < |lines| :: Decode(lines[k]).SensorLine? ==> |Decode(lines[k]).unit| < UnitSize
  }

  /** One line of LoadConfig; None when the program exits. */
  function Apply(t: Tables, d: Directive): (r: Option<Tables>)
    requires WellFormed(t)
    requires d.OptionLine? ==> |t.options| < MaxOptions
    requires d.SensorLine? ==> |d.unit| < UnitSize
    ensures r.Some? ==> WellFormed(r.value)
  {
    match d
    case Ignored => Some(t)
    case ShortOption => Some(t)
    case ShortSensor => Some(t)
    case Overlong => None
    case OptionLine(name, value) => Some(t.(options := t.options + [OptionEntry(name, value)]))
    case SensorLine(driver, device, location, name, unit) => AddRecord(t, driver, device, location, name, unit)
  }

  /** LoadConfig over the lines of the file, in order; None when the program exits on one of them. */
  function Load(t: Tables, lines: seq<string>): (r: Option<Tables>)
    requires WellFormed(t) && Fits(t, lines)
    ensures r.Some? ==> WellFormed(r.value)
    ensures r.Some? ==> |r.value.options| == |t.options| + OptionLines(lines)
  {
    if lines == [] then Some(t)
    else
      var init := lines[..|lines| - 1];
      assert Fits(t, init) by {
        forall k | 0 <= k < |init| ensures Decode(init[k]).SensorLine? ==> |Decode(init[k]).unit| < UnitSize {
          assert init[k] == lines[k];
        }
      }
      match Load(t, init)
      case None => None
      case Some(t') => Apply(t', Decode(lines[|lines| - 1]))
  }

  /** A complete load holds one record per sensor line of the file, after those it started with. */
  lemma {:induction false} LoadRecords(t: Tables, lines: seq<string>)
    requires WellFormed(t) && Fits(t, lines)
    ensures Load(t, lines).Some? ==> |Load(t, lines).value.sensors| == |t.sensors| + SensorLines(lines)
  {
    if lines != [] {
      var i := |lines| - 1;
      FitsPrefix(t, lines, i);
      LoadRecords(t, lines[..i]);
      assert lines[..i + 1] == lines;
      LoadStep(t, lines, i);
      var l := Load(t, lines[..i]);
      if l.Some? {
        var d := Decode(lines[i]);
        var r := Apply(l.value, d);
        if r.Some? && d.SensorLine? {
          assert Added(l.value, r.value, d.driver, d.device, d.location, d.name, d.unit);
        }
      }
    }
  }

  /** Lines that are ignored or too short leave every table as it was. */
  lemma SkippedLeavesTables(t: Tables, line: string)
    requires WellFormed(t)
    requires Skipped(line) || Decode(line).ShortOption? || Decode(line).ShortSensor?
    ensures Apply(t, Decode(line)) == Some(t)
  {
  }

  /** Each line either exits or leaves the record and option counts grown by what it declares. */
  lemma ApplyGrows(t: Tables, line: string)
    requires WellFormed(t) && Fits(t, [line])
    ensures Apply(t, Decode(line)).None? <==>
              Decode(line).Overlong?
              || (Decode(line).SensorLine? && Decode(line).location !in Names(t.locations) && |t.locations| == MaxLocations)
    ensures var r := Apply(t, Decode(line));
            r.Some? ==> |r.value.sensors| == |t.sensors| + (if Decode(line).SensorLine? then 1 else 0)
                        && |r.value.options| == |t.options| + (if Decode(line).OptionLine? then 1 else 0)
  {
    assert OptionLines([line]) == (if Decode(line).OptionLine? then 1 else 0) by {
      assert [line][..0] == [];
    }
    assert [line][0] == line;
  }

  lemma FitsPrefix(t: Tables, lines: seq<string>, i: nat)
    requires Fits(t, lines) && i <= |lines|
    ensures Fits(t, lines[..i])
  {
    OptionLinesPrefix(lines, i);
    forall k | 0 <= k < i ensures lines[..i][k] == lines[k] { }
  }

  /** Fewer lines never declare more options. */
  lemma {:induction false} OptionLinesPrefix(lines: seq<string>, i: nat)
    requires i <= |lines|
    ensures OptionLines(lines[..i]) <= OptionLines(lines)
    decreases |lines|
  {
    if i < |lines| {
      var init := lines[..|lines| - 1];
      assert lines[..i] == init[..i];
      OptionLinesPrefix(init, i);
    } else {
      assert lines[..i] == lines;
    }
  }

  /** Loading one more line applies that line to what the earlier lines loaded. */
  lemma LoadStep(t: Tables, lines: seq<string>, i: nat)
    requires WellFormed(t) && i < |lines| && Fits(t, lines[..i + 1])
    ensures Fits(t, lines[..i])
    ensures OptionLines(lines[..i + 1]) == OptionLines(lines[..i]) + (if Decode(lines[i]).OptionLine? then 1 else 0)
    ensures Decode(lines[i]).SensorLine? ==> |Decode(lines[i]).unit| < UnitSize
    ensures Load(t, lines[..i + 1]) ==
              match Load(t, lines[..i])
              case None => None
              case Some(t') => Apply(t', Decode(lines[i]))
  {
    assert lines[..i + 1][..i] == lines[..i];
    assert lines[..i + 1][i] == lines[i];
    FitsPrefix(t, lines[..i + 1], i);
  }

  /** Once a line makes the program exit, later lines change nothing. */
  lemma {:induction false} LoadExit(t: Tables, lines: seq<string>, i: nat)
    requires WellFormed(t) && Fits(t, lines) && i <= |lines| && Fits(t, lines[..i]) && Load(t, lines[..i]).None?
    ensures Load(t, lines).None?
    decreases |lines|
  {
    if i < |lines| {
      var init := lines[..|lines| - 1];
      FitsPrefix(t, lines, |lines| - 1);
      assert lines[..i] == init[..i];
      LoadExit(t, init, i);
      assert Load(t, init).None?;
    } else {
      assert lines[..i] == lines;
    }
  }

  /** An update of one record keeps the tables well formed: it touches neither links nor locations. */
  lemma UpdateKeeps(t: Tables, i: nat, value: string, unit: Option<string>, now: int)
    requires WellFormed(t) && i < |t.sensors|
    ensures WellFormed(t.(sensors := t.sensors[i := Updated(t.sensors[i], value, unit, now)]))
  {
    var ss := t.sensors[i := Updated(t.sensors[i], value, unit, now)];
    assert SameShape(t.sensors, ss);
    IndexedShape(t.sensors, ss, t.locations);
  }
}
