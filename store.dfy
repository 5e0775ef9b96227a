/**
 * The records of the sensor database (housesensor_db.c) as values, and the
 * facts about them that the database object keeps: the index-linked location
 * lists, the first-match lookups, and what one update does to a record.
 */
module Store {
  import opened Maybe
  import opened Text

  /** SensorLocationDatabase holds this many groups; one more is fatal. */
  const MaxLocations := 64
  /** SensorOptionDatabase has this many entries. */
  const MaxOptions := 128
  /** sizeof(unit) and sizeof(value) in SensorContext, NUL included. */
  const UnitSize := 32
  const ValueSize := 128

  /** SensorContext; `next` is the index of the next record of the same location, or -1. */
  datatype Sensor = Sensor(driver: string, device: string, location: string, name: string,
                           unit: string, value: string, timestamp: int, next: int)

  /** SensorLocation: a location and the index of the head of its list. */
  datatype Location = Location(name: string, first: nat)

  datatype OptionEntry = OptionEntry(name: string, value: string)

  /** Every link points to an earlier record, so every list ends. */
  predicate Linked(ss: seq<Sensor>)
  {
    forall k | 0 <= k < |ss| :: -1 <= ss[k].next < k
  }

  lemma LinkedAppend(ss: seq<Sensor>, x: Sensor)
    requires Linked(ss) && -1 <= x.next < |ss|
    ensures Linked(ss + [x])
  {
    assert forall k | 0 <= k < |ss| :: (ss + [x])[k] == ss[k];
  }

  /** The records visited by following the links from index i. */
  function Chain(ss: seq<Sensor>, i: int): seq<nat>
    requires Linked(ss) && -1 <= i < |ss|
    decreases i + 1
  {
    if i < 0 then [] else [i as nat] + Chain(ss, ss[i].next)
  }

  /** The indexes below n of the records at location loc, latest declared first. */
  function Members(ss: seq<Sensor>, loc: string, n: nat): seq<nat>
    requires n <= |ss|
  {
    if n == 0 then []
    else (if ss[n - 1].location == loc then [n - 1] else []) + Members(ss, loc, n - 1)
  }

  function Names(locs: seq<Location>): (r: seq<string>)
    ensures |r| == |locs|
    ensures forall j | 0 <= j < |locs| :: r[j] == locs[j].name
  {
    seq(|locs|, j requires 0 <= j < |locs| => locs[j].name)
  }

  /**
   * The location index is right: one group per distinct location, and the
   * list of each group holds exactly the records declared at that location,
   * the latest first.
   */
  predicate Indexed(ss: seq<Sensor>, locs: seq<Location>)
  {
    Linked(ss) && GroupsRight(ss, locs) && DistinctNames(locs) && Covered(ss, locs)
  }

  predicate GroupsRight(ss: seq<Sensor>, locs: seq<Location>)
    requires Linked(ss)
  {
    forall j | 0 <= j < |locs| :: GroupRight(ss, locs, j)
  }

  /** Group j's list holds exactly the records declared at its location, latest first. */
  predicate GroupRight(ss: seq<Sensor>, locs: seq<Location>, j: nat)
    requires Linked(ss) && j < |locs|
  {
    locs[j].first < |ss| && Chain(ss, locs[j].first) == Members(ss, locs[j].name, |ss|)
  }

  predicate DistinctNames(locs: seq<Location>)
  {
    forall j, j' | 0 <= j < j' < |locs| :: locs[j].name != locs[j'].name
  }

  /** Every record's location has a group. */
  predicate Covered(ss: seq<Sensor>, locs: seq<Location>)
  {
    forall k | 0 <= k < |ss| :: ss[k].location in Names(locs)
  }

  predicate Descending(s: seq<nat>)
  {
    forall a, b | 0 <= a < b < |s| :: s[a] > s[b]
  }

  /** Members lists each record at loc exactly once: all of them, nothing else, in descending order. */
  lemma {:induction false} MembersSpec(ss: seq<Sensor>, loc: string, n: nat)
    requires n <= |ss|
    ensures forall k: nat :: k in Members(ss, loc, n) <==> k < n && ss[k].location == loc
    ensures Descending(Members(ss, loc, n))
  {
    if n > 0 {
      MembersSpec(ss, loc, n - 1);
      var m := Members(ss, loc, n - 1);
      var s := Members(ss, loc, n);
      if ss[n - 1].location == loc {
        assert s == [n - 1] + m;
        forall a, b | 0 <= a < b < |s| ensures s[a] > s[b] {
          assert s[b] == m[b - 1] && s[b] in m;
          if a > 0 { assert s[a] == m[a - 1]; }
        }
      }
    }
  }

  lemma {:induction false} MembersNone(ss: seq<Sensor>, loc: string, n: nat)
    requires n <= |ss|
    requires forall k | 0 <= k < n :: ss[k].location != loc
    ensures Members(ss, loc, n) == []
  {
    if n > 0 {
      MembersNone(ss, loc, n - 1);
    }
  }

  lemma {:induction false} MembersAppend(ss: seq<Sensor>, x: Sensor, loc: string, n: nat)
    requires n <= |ss|
    ensures Members(ss + [x], loc, n) == Members(ss, loc, n)
  {
    if n > 0 {
      MembersAppend(ss, x, loc, n - 1);
    }
  }

  lemma {:induction false} ChainAppend(ss: seq<Sensor>, x: Sensor, i: int)
    requires Linked(ss) && Linked(ss + [x]) && -1 <= i < |ss|
    ensures Chain(ss + [x], i) == Chain(ss, i)
    decreases i + 1
  {
    if i >= 0 {
      ChainAppend(ss, x, ss[i].next);
    }
  }

  /** The fields an update never touches: identity, location, name and link. */
  predicate SameShape(a: seq<Sensor>, b: seq<Sensor>)
  {
    |a| == |b| &&
    forall k | 0 <= k < |a| ::
      a[k].driver == b[k].driver && a[k].device == b[k].device && a[k].location == b[k].location
      && a[k].name == b[k].name && a[k].next == b[k].next
  }

  lemma {:induction false} ChainShape(a: seq<Sensor>, b: seq<Sensor>, i: int)
    requires SameShape(a, b) && Linked(a) && -1 <= i < |a|
    ensures Linked(b) && Chain(a, i) == Chain(b, i)
    decreases i + 1
  {
    if i >= 0 {
      ChainShape(a, b, a[i].next);
    }
  }

  lemma {:induction false} MembersShape(a: seq<Sensor>, b: seq<Sensor>, loc: string, n: nat)
    requires SameShape(a, b) && n <= |a|
    ensures Members(a, loc, n) == Members(b, loc, n)
  {
    if n > 0 {
      MembersShape(a, b, loc, n - 1);
    }
  }

  /** Updating values, units and timestamps leaves the location index right. */
  lemma IndexedShape(a: seq<Sensor>, b: seq<Sensor>, locs: seq<Location>)
    requires Indexed(a, locs) && SameShape(a, b)
    ensures Indexed(b, locs)
  {
    forall j | 0 <= j < |locs|
      ensures GroupRight(b, locs, j)
    {
      assert GroupRight(a, locs, j);
      ChainShape(a, b, locs[j].first);
      MembersShape(a, b, locs[j].name, |a|);
    }
    assert Covered(b, locs) by {
      forall k | 0 <= k < |b| ensures b[k].location in Names(locs) {
        assert a[k].location in Names(locs);
      }
    }
  }

  /** The groups already there keep their lists when a record is appended to the table. */
  lemma GroupsAppend(ss: seq<Sensor>, locs: seq<Location>, x: Sensor)
    requires Linked(ss) && GroupsRight(ss, locs) && Linked(ss + [x])
    requires forall j | 0 <= j < |locs| :: locs[j].name != x.location
    ensures GroupsRight(ss + [x], locs)
  {
    forall j | 0 <= j < |locs|
      ensures GroupRight(ss + [x], locs, j)
    {
      assert GroupRight(ss, locs, j);
      ChainAppend(ss, x, locs[j].first);
      MembersAppend(ss, x, locs[j].name, |ss|);
    }
  }

  /** The new group's list is the new record alone, since no earlier record shares its location. */
  lemma GroupsAddNew(ss: seq<Sensor>, locs: seq<Location>, x: Sensor)
    requires Linked(ss) && GroupsRight(ss, locs) && x.next == -1
    requires forall j | 0 <= j < |locs| :: locs[j].name != x.location
    requires forall k | 0 <= k < |ss| :: ss[k].location != x.location
    ensures Linked(ss + [x])
    ensures GroupsRight(ss + [x], locs + [Location(x.location, |ss|)])
    ensures Chain(ss + [x], |ss|) == [|ss|]
  {
    var ss' := ss + [x];
    assert Linked(ss');
    GroupsAppend(ss, locs, x);
    MembersNone(ss, x.location, |ss|);
    assert Chain(ss', |ss|) == [|ss|];
  }

  lemma CoveredAdd(ss: seq<Sensor>, locs: seq<Location>, x: Sensor, locs': seq<Location>)
    requires Covered(ss, locs) && x.location in Names(locs') && Names(locs) <= Names(locs')
    ensures Covered(ss + [x], locs')
  {
    forall k | 0 <= k < |ss| + 1 ensures (ss + [x])[k].location in Names(locs') {
      if k < |ss| {
        var n := ss[k].location;
        assert n in Names(locs);
        var i :| 0 <= i < |Names(locs)| && Names(locs)[i] == n;
        assert Names(locs')[i] == n;
      }
    }
  }

  /** A record at a location not seen before starts a new group whose list is that record alone. */
  lemma IndexedAddNew(ss: seq<Sensor>, locs: seq<Location>, x: Sensor)
    requires Indexed(ss, locs) && x.location !in Names(locs) && x.next == -1
    ensures Indexed(ss + [x], locs + [Location(x.location, |ss|)])
    ensures Chain(ss + [x], |ss|) == [|ss|]
  {
    var locs' := locs + [Location(x.location, |ss|)];
    forall j | 0 <= j < |locs| ensures locs[j].name != x.location {
      assert Names(locs)[j] == locs[j].name;
    }
    assert forall k | 0 <= k < |ss| :: ss[k].location != x.location;
    GroupsAddNew(ss, locs, x);
    assert Names(locs') == Names(locs) + [x.location];
    CoveredAdd(ss, locs, x, locs');
  }

  /** The other groups, which a record at group j's location does not concern. */
  lemma GroupsOthers(ss: seq<Sensor>, locs: seq<Location>, x: Sensor, j: nat)
    requires Linked(ss) && Linked(ss + [x]) && GroupsRight(ss, locs) && DistinctNames(locs)
    requires j < |locs| && locs[j].name == x.location
    ensures forall i | 0 <= i < |locs| && i != j :: GroupRight(ss + [x], locs, i)
  {
    forall i | 0 <= i < |locs| && i != j ensures GroupRight(ss + [x], locs, i) {
      assert GroupRight(ss, locs, i);
      assert locs[i].name != x.location;
      ChainAppend(ss, x, locs[i].first);
      MembersAppend(ss, x, locs[i].name, |ss|);
    }
  }

  /** Repointing group j at another record of the same name keeps the name list. */
  lemma NamesKeep(locs: seq<Location>, j: nat, l: Location)
    requires j < |locs| && l.name == locs[j].name && DistinctNames(locs)
    ensures Names(locs[j := l]) == Names(locs)
    ensures DistinctNames(locs[j := l])
  {
    assert forall i | 0 <= i < |locs| :: locs[j := l][i].name == locs[i].name;
  }

  /** Group j, repointed at the new record, lists it ahead of its old list. */
  lemma HeadGroup(ss: seq<Sensor>, locs: seq<Location>, x: Sensor, j: nat)
    requires Linked(ss) && Linked(ss + [x]) && j < |locs| && locs[j].name == x.location
    requires x.next == locs[j].first && GroupRight(ss, locs, j)
    ensures GroupRight(ss + [x], locs[j := Location(x.location, |ss|)], j)
  {
    ChainAppend(ss, x, locs[j].first);
    MembersAppend(ss, x, x.location, |ss|);
  }

  /** After a record at group j's location is added and group j repointed, every group is right. */
  lemma GroupsAddKnown(ss: seq<Sensor>, locs: seq<Location>, x: Sensor, j: nat)
    requires Linked(ss) && Linked(ss + [x]) && GroupsRight(ss, locs) && DistinctNames(locs)
    requires j < |locs| && locs[j].name == x.location && x.next == locs[j].first
    ensures GroupsRight(ss + [x], locs[j := Location(x.location, |ss|)])
  {
    var ss', locs' := ss + [x], locs[j := Location(x.location, |ss|)];
    assert GroupRight(ss, locs, j);
    GroupsOthers(ss, locs, x, j);
    HeadGroup(ss, locs, x, j);
    forall i | 0 <= i < |locs'| ensures GroupRight(ss', locs', i) {
      if i != j {
        assert locs'[i] == locs[i];
        assert GroupRight(ss', locs, i);
      }
    }
  }

  lemma IndexedRepoint(ss: seq<Sensor>, locs: seq<Location>, x: Sensor, j: nat)
    requires Indexed(ss, locs) && j < |locs| && locs[j].name == x.location && x.next == locs[j].first
    requires Linked(ss + [x])
    ensures Indexed(ss + [x], locs[j := Location(x.location, |ss|)])
  {
    var locs' := locs[j := Location(x.location, |ss|)];
    GroupsAddKnown(ss, locs, x, j);
    NamesKeep(locs, j, Location(x.location, |ss|));
    assert Names(locs)[j] == x.location;
    CoveredAdd(ss, locs, x, locs');
  }

  /** A record at a known location is pushed to the front of that location's list. */
  lemma IndexedAddKnown(ss: seq<Sensor>, locs: seq<Location>, x: Sensor, j: nat)
    requires Indexed(ss, locs) && j < |locs| && locs[j].name == x.location && x.next == locs[j].first
    ensures locs[j].first < |ss| && Linked(ss + [x])
    ensures Indexed(ss + [x], locs[j := Location(x.location, |ss|)])
    ensures Chain(ss + [x], |ss|) == [|ss|] + Chain(ss, locs[j].first)
  {
    assert GroupRight(ss, locs, j);
    LinkedAppend(ss, x);
    IndexedRepoint(ss, locs, x, j);
    ChainAppend(ss, x, locs[j].first);
  }

  /**
   * Every record appears in exactly one location list, the one of its own
   * location, and appears there once.
   */
  lemma InExactlyOneGroup(ss: seq<Sensor>, locs: seq<Location>, k: nat)
    requires Indexed(ss, locs) && k < |ss|
    ensures exists j :: 0 <= j < |locs| && locs[j].name == ss[k].location
    ensures forall j | 0 <= j < |locs| ::
              && locs[j].first < |ss|
              && (k in Chain(ss, locs[j].first) <==> locs[j].name == ss[k].location)
              && Descending(Chain(ss, locs[j].first))
  {
    assert ss[k].location in Names(locs);
    var j0 :| 0 <= j0 < |Names(locs)| && Names(locs)[j0] == ss[k].location;
    assert locs[j0].name == ss[k].location;
    forall j | 0 <= j < |locs|
      ensures locs[j].first < |ss|
      ensures k in Chain(ss, locs[j].first) <==> locs[j].name == ss[k].location
      ensures Descending(Chain(ss, locs[j].first))
    {
      assert GroupRight(ss, locs, j);
      MembersSpec(ss, locs[j].name, |ss|);
    }
  }

  /** The first record, from index `from` on, with this device and driver (the search loop of housesensor_db_set). */
  function Lookup(ss: seq<Sensor>, driver: string, device: string, from: nat): (r: Option<nat>)
    requires from <= |ss|
    ensures r.Some? ==> from <= r.value < |ss| && ss[r.value].driver == driver && ss[r.value].device == device
    ensures r.Some? ==> forall k | from <= k < r.value :: !(ss[k].driver == driver && ss[k].device == device)
    ensures r.None? ==> forall k | from <= k < |ss| :: !(ss[k].driver == driver && ss[k].device == device)
    decreases |ss| - from
  {
    if from == |ss| then None
    else if ss[from].device == device && ss[from].driver == driver then Some(from)
    else Lookup(ss, driver, device, from + 1)
  }

  /** strncpy into a buffer of n+1 bytes followed by a NUL at its end: the first n characters. */
  function Truncate(s: string, n: nat): (r: string)
    ensures r <= s && |r| <= n
    ensures |s| <= n ==> r == s
    ensures |s| > n ==> r == s[..n]
  {
    if |s| <= n then s else s[..n]
  }

  /**
   * A record after housesensor_db_set(driver, device, value, unit) at time
   * now: the value cut to 127 characters, the time stamped, and the unit
   * taken from the call only while the record has none (first unit wins).
   */
  function Updated(s: Sensor, value: string, unit: Option<string>, now: int): (r: Sensor)
    ensures r.value <= value && |r.value| < ValueSize
    ensures |value| < ValueSize ==> r.value == value
    ensures |value| >= ValueSize ==> r.value == value[..ValueSize - 1]
    ensures r.timestamp == now
    ensures s.unit != "" ==> r.unit == s.unit
    ensures s.unit == "" && unit.Some? ==> r.unit <= unit.value && |r.unit| < UnitSize
    ensures s.unit == "" && unit.Some? && |unit.value| < UnitSize ==> r.unit == unit.value
    ensures s.unit == "" && unit.Some? && |unit.value| >= UnitSize ==> r.unit == unit.value[..UnitSize - 1]
    ensures s.unit == "" && unit.None? ==> r.unit == ""
    ensures r.driver == s.driver && r.device == s.device && r.location == s.location
    ensures r.name == s.name && r.next == s.next
  {
    var u := if unit.Some? && s.unit == "" then Truncate(unit.value, UnitSize - 1) else s.unit;
    s.(value := Truncate(value, ValueSize - 1), unit := u, timestamp := now)
  }

  /** Once a record has a unit, no later update changes it, whatever unit it supplies. */
  lemma {:induction false} UnitSticky(s: Sensor, updates: seq<(string, Option<string>, int)>)
    requires s.unit != ""
    ensures ApplyAll(s, updates).unit == s.unit
    decreases |updates|
  {
    if updates != [] {
      var (v, u, t) := updates[0];
      UnitSticky(Updated(s, v, u, t), updates[1..]);
    }
  }

  /**
   * First unit wins: the first set that supplies a non-empty unit to a record
   * without one gives it that unit cut to 31 characters, and no later set
   * changes it.
   */
  lemma FirstUnitWins(s: Sensor, value: string, u: string, now: int, later: seq<(string, Option<string>, int)>)
    requires s.unit == "" && u != ""
    ensures ApplyAll(Updated(s, value, Some(u), now), later).unit == Truncate(u, UnitSize - 1)
  {
    UnitSticky(Updated(s, value, Some(u), now), later);
  }

  /** A record after a series of updates, in order. */
  function ApplyAll(s: Sensor, updates: seq<(string, Option<string>, int)>): Sensor
    decreases |updates|
  {
    if updates == [] then s
    else
      var (v, u, t) := updates[0];
      ApplyAll(Updated(s, v, u, t), updates[1..])
  }

  /** The raw log line "%lld,%s,%s,%s,%s\n": it carries the value as given, not as stored. */
  function CsvLine(now: int, s: Sensor, value: string): string
  {
    Dec(now) + "," + s.location + "," + s.name + "," + value + "," + s.unit + "\n"
  }

  /** The first record at or after `from` whose driver is `driver`. */
  function NextOfDriver(ss: seq<Sensor>, driver: string, from: nat): (r: Option<nat>)
    requires from <= |ss|
    ensures r.Some? ==> from <= r.value < |ss| && ss[r.value].driver == driver
    ensures r.Some? ==> forall k | from <= k < r.value :: ss[k].driver != driver
    ensures r.None? ==> forall k | from <= k < |ss| :: ss[k].driver != driver
    decreases |ss| - from
  {
    if from == |ss| then None
    else if ss[from].driver == driver then Some(from)
    else NextOfDriver(ss, driver, from + 1)
  }

  /** The devices of the records of one driver from index `from` on, in table order. */
  function DevicesFrom(ss: seq<Sensor>, driver: string, from: nat): seq<string>
    requires from <= |ss|
    decreases |ss| - from
  {
    if from == |ss| then []
    else (if ss[from].driver == driver then [ss[from].device] else []) + DevicesFrom(ss, driver, from + 1)
  }

  /** The enumeration from `from` is the next record of the driver, then the enumeration after it. */
  lemma {:induction false} DevicesFromNext(ss: seq<Sensor>, driver: string, from: nat)
    requires from <= |ss|
    ensures NextOfDriver(ss, driver, from).None? ==> DevicesFrom(ss, driver, from) == []
    ensures NextOfDriver(ss, driver, from).Some? ==>
              var i := NextOfDriver(ss, driver, from).value;
              DevicesFrom(ss, driver, from) == [ss[i].device] + DevicesFrom(ss, driver, i + 1)
    decreases |ss| - from
  {
    if from < |ss| && ss[from].driver != driver {
      DevicesFromNext(ss, driver, from + 1);
    }
  }

  /** The enumeration lists exactly the devices of the driver's records at or after `from`, one per record. */
  lemma {:induction false} DevicesFromSpec(ss: seq<Sensor>, driver: string, from: nat)
    requires from <= |ss|
    ensures forall x :: x in DevicesFrom(ss, driver, from) <==>
              exists k | from <= k < |ss| :: ss[k].driver == driver && ss[k].device == x
    ensures |DevicesFrom(ss, driver, from)| <= |ss| - from
    decreases |ss| - from
  {
    if from < |ss| {
      DevicesFromSpec(ss, driver, from + 1);
      forall x | exists k | from <= k < |ss| :: ss[k].driver == driver && ss[k].device == x
        ensures x in DevicesFrom(ss, driver, from)
      {
        var k :| from <= k < |ss| && ss[k].driver == driver && ss[k].device == x;
        if k > from {
          assert x in DevicesFrom(ss, driver, from + 1);
        }
      }
    }
  }

  /** Updates do not change which devices a driver has. */
  lemma {:induction false} DevicesShape(a: seq<Sensor>, b: seq<Sensor>, driver: string, from: nat)
    requires SameShape(a, b) && from <= |a|
    ensures DevicesFrom(a, driver, from) == DevicesFrom(b, driver, from)
    decreases |a| - from
  {
    if from < |a| {
      DevicesShape(a, b, driver, from + 1);
    }
  }

  /** housesensor_db_option's search: the value of the first entry with this name. */
  function FindOption(opts: seq<OptionEntry>, name: string, from: nat): (r: Option<string>)
    requires from <= |opts|
    ensures r.Some? ==> exists k | from <= k < |opts| :: opts[k].name == name && opts[k].value == r.value
                          && forall k' | from <= k' < k :: opts[k'].name != name
    ensures r.None? ==> forall k | from <= k < |opts| :: opts[k].name != name
    decreases |opts| - from
  {
    if from == |opts| then None
    else if opts[from].name == name then Some(opts[from].value)
    else FindOption(opts, name, from + 1)
  }

  /** AddSensor's search of the location table: the group of `name` at or after `from`. */
  function GroupOf(locs: seq<Location>, name: string, from: nat): (r: Option<nat>)
    requires from <= |locs|
    ensures r.Some? ==> from <= r.value < |locs| && locs[r.value].name == name
    ensures r.None? ==> forall j | from <= j < |locs| :: locs[j].name != name
    decreases |locs| - from
  {
    if from == |locs| then None
    else if locs[from].name == name then Some(from)
    else GroupOf(locs, name, from + 1)
  }

  /** A location has a group exactly when the search from the start finds one. */
  lemma GroupOfNames(locs: seq<Location>, name: string)
    ensures GroupOf(locs, name, 0).Some? <==> name in Names(locs)
  {
    if name in Names(locs) {
      var j :| 0 <= j < |locs| && Names(locs)[j] == name;
      assert locs[j].name == name;
    }
  }

  /** An appended record of location loc comes first among the records of loc. */
  lemma MembersPush(ss: seq<Sensor>, x: Sensor)
    ensures Members(ss + [x], x.location, |ss| + 1) == [|ss|] + Members(ss, x.location, |ss|)
  {
    MembersAppend(ss, x, x.location, |ss|);
  }

  /** A list only visits records of the table. */
  lemma {:induction false} ChainBound(ss: seq<Sensor>, i: int)
    requires Linked(ss) && -1 <= i < |ss|
    ensures forall k | 0 <= k < |Chain(ss, i)| :: Chain(ss, i)[k] <= i
    decreases i + 1
  {
    if i >= 0 {
      ChainBound(ss, ss[i].next);
    }
  }

  /** A strictly descending list holds each index at most once. */
  lemma {:induction false} DescendingCount(s: seq<nat>, x: nat)
    requires Descending(s)
    ensures multiset(s)[x] == if x in s then 1 else 0
  {
    if s != [] {
      assert s == [s[0]] + s[1..];
      DescendingCount(s[1..], x);
      if x == s[0] {
        assert x !in s[1..];
      }
    }
  }

  /** The lists of groups 0 to n-1, one after the other: the order housesensor_db_latest visits records in. */
  function Listing(ss: seq<Sensor>, locs: seq<Location>, n: nat): seq<nat>
    requires Indexed(ss, locs) && n <= |locs|
  {
    if n == 0 then []
    else
      assert GroupRight(ss, locs, n - 1);
      Listing(ss, locs, n - 1) + Chain(ss, locs[n - 1].first)
  }

  /** Group j's list holds record k once if k is at j's location, and otherwise not at all. */
  lemma ChainCount(ss: seq<Sensor>, locs: seq<Location>, j: nat, k: nat)
    requires Indexed(ss, locs) && j < |locs| && k < |ss|
    ensures locs[j].first < |ss|
    ensures multiset(Chain(ss, locs[j].first))[k] == if locs[j].name == ss[k].location then 1 else 0
  {
    InExactlyOneGroup(ss, locs, k);
    DescendingCount(Chain(ss, locs[j].first), k);
  }

  /** A record is listed once if the group of its location is among the first n, and otherwise not at all. */
  lemma {:induction false} ListingCount(ss: seq<Sensor>, locs: seq<Location>, n: nat, k: nat)
    requires Indexed(ss, locs) && n <= |locs| && k < |ss|
    ensures var g := GroupOf(locs, ss[k].location, 0);
            multiset(Listing(ss, locs, n))[k] == if g.Some? && g.value < n then 1 else 0
  {
    if n > 0 {
      ListingCount(ss, locs, n - 1, k);
      ChainCount(ss, locs, n - 1, k);
      var g := GroupOf(locs, ss[k].location, 0);
      if locs[n - 1].name == ss[k].location {
        assert g.Some?;
      }
    }
  }

  /**
   * The groups' lists together hold every record of the table exactly once,
   * and nothing else: the latest view shows each sensor once.
   */
  lemma ListingExactlyOnce(ss: seq<Sensor>, locs: seq<Location>)
    requires Indexed(ss, locs)
    ensures forall k | 0 <= k < |ss| :: multiset(Listing(ss, locs, |locs|))[k] == 1
    ensures forall x | x in Listing(ss, locs, |locs|) :: x < |ss|
  {
    forall k | 0 <= k < |ss| ensures multiset(Listing(ss, locs, |locs|))[k] == 1 {
      ListingCount(ss, locs, |locs|, k);
      assert ss[k].location in Names(locs);
      GroupOfNames(locs, ss[k].location);
    }
    ListingBound(ss, locs, |locs|);
  }

  lemma {:induction false} ListingBound(ss: seq<Sensor>, locs: seq<Location>, n: nat)
    requires Indexed(ss, locs) && n <= |locs|
    ensures forall x | x in Listing(ss, locs, n) :: x < |ss|
  {
    if n > 0 {
      ListingBound(ss, locs, n - 1);
      assert GroupRight(ss, locs, n - 1);
      ChainBound(ss, locs[n - 1].first);
    }
  }
}
