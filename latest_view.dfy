/**
 * housesensor_db_latest: the current value of every record, grouped by
 * location. The text is written piece by piece into a static buffer, so what
 * is returned is the whole document cut to the buffer's size less one.
 */
module LatestView {
  import opened Text
  import opened Snprintf
  import opened Store

  /** The static buffer of the latest view. */
  const LatestSize := 65537

  /** The start of `,"value":`, after which a value is either bare or quoted. */
  const ValueKey := ",\"value\":"

  /** A record's value in the latest view: null when never set, bare when it has a unit, quoted otherwise. */
  function LatestValue(s: Sensor): string
  {
    if s.value == "" then ValueKey + "null}"
    else if s.unit != "" then ValueKey + s.value + ",\"unit\":\"" + s.unit + "\"}"
    else ValueKey + "\"" + s.value + "\"}"
  }

  /** The timestamp member appears only once the record has been set (a time of 0 means never). */
  function TimestampMember(t: int): string
  {
    if t != 0 then ",\"timestamp\":" + Dec(t) else ""
  }

  function LatestItem(prefix: string, s: Sensor): string
  {
    prefix + "{\"name\":\"" + s.name + "\"" + TimestampMember(s.timestamp) + LatestValue(s)
  }

  /** The items of the records ks, comma separated. */
  function Items(ss: seq<Sensor>, ks: seq<nat>): string
    requires forall k | 0 <= k < |ks| :: ks[k] < |ss|
  {
    if ks == [] then ""
    else Items(ss, ks[..|ks| - 1]) + LatestItem(Sep(|ks| - 1), ss[ks[|ks| - 1]])
  }

  function GroupOpen(prefix: string, l: Location): string
  {
    prefix + "\"" + l.name + "\":["
  }

  /** Every group's list starts at a record of the table: all the renderer needs of the index. */
  predicate Heads(ss: seq<Sensor>, locs: seq<Location>)
  {
    forall j | 0 <= j < |locs| :: locs[j].first < |ss|
  }

  lemma IndexedHeads(ss: seq<Sensor>, locs: seq<Location>)
    requires Indexed(ss, locs)
    ensures Linked(ss) && Heads(ss, locs)
  {
    forall j | 0 <= j < |locs| ensures locs[j].first < |ss| {
      assert GroupRight(ss, locs, j);
    }
  }

  /** Location j with the items of its list, after a comma unless it is the first. */
  function Group(ss: seq<Sensor>, locs: seq<Location>, j: nat): string
    requires Linked(ss) && Heads(ss, locs) && j < |locs|
  {
    ChainBound(ss, locs[j].first);
    GroupOpen(Sep(j), locs[j]) + Items(ss, Chain(ss, locs[j].first)) + "]"
  }

  /** Groups 0 to n-1. */
  function Groups(ss: seq<Sensor>, locs: seq<Location>, n: nat): string
    requires Linked(ss) && Heads(ss, locs) && n <= |locs|
  {
    if n == 0 then "" else Groups(ss, locs, n - 1) + Group(ss, locs, n - 1)
  }

  function LatestHead(host: string, proxy: string, now: int): string
  {
    "{\"host\":\"" + host + "\",\"proxy\":\"" + proxy + "\",\"timestamp\":" + Dec(now) + ",\"sensor\":{"
  }

  /** The whole latest document, before the buffer cuts it. */
  function LatestDoc(host: string, proxy: string, now: int, ss: seq<Sensor>, locs: seq<Location>): string
    requires Linked(ss) && Heads(ss, locs)
  {
    LatestHead(host, proxy, now) + Groups(ss, locs, |locs|) + "}}"
  }

  /**
   * In the latest view a set value is bare exactly when the record has a
   * unit: the character after `"value":` opens a string only when the unit
   * is empty (a value that itself starts with a quote aside).
   */
  lemma LatestValueQuoting(s: Sensor)
    requires s.value != "" && s.value[0] != '"'
    ensures LatestValue(s)[..|ValueKey|] == ValueKey
    ensures LatestValue(s)[|ValueKey|] == '"' <==> s.unit == ""
  {
    if s.unit != "" {
      assert LatestValue(s)[|ValueKey|] == s.value[0];
    }
  }

  lemma ItemsStep(ss: seq<Sensor>, ks: seq<nat>, i: nat)
    requires i < |ss| && forall k | 0 <= k < |ks| :: ks[k] < |ss|
    ensures Items(ss, ks + [i]) == Items(ss, ks) + LatestItem(Sep(|ks|), ss[i])
  {
    assert (ks + [i])[..|ks|] == ks;
  }

  /** One record of the latest view, written as its name, its timestamp when set, then its value. */
  method WriteItem(json: string, ghost full: string, prefix: string, s: Sensor) returns (next: string)
    requires json == Cap(full, LatestSize)
    ensures next == Cap(full + LatestItem(prefix, s), LatestSize)
  {
    var head := prefix + "{\"name\":\"" + s.name + "\"";
    next := Append(json, full, head, LatestSize);
    ghost var written := full + head;
    if s.timestamp != 0 {
      next := Append(next, written, ",\"timestamp\":" + Dec(s.timestamp), LatestSize);
      written := written + (",\"timestamp\":" + Dec(s.timestamp));
    }
    assert written == full + head + TimestampMember(s.timestamp);
    var value: string;
    if s.value == "" {
      value := ",\"value\":null}";
    } else if s.unit != "" {
      value := ",\"value\":" + s.value + ",\"unit\":\"" + s.unit + "\"}";
    } else {
      value := ",\"value\":\"" + s.value + "\"}";
    }
    assert value == LatestValue(s);
    next := Append(next, written, value, LatestSize);
    Regroup(full, head, TimestampMember(s.timestamp), value);
  }

  /** The inner loop of housesensor_db_latest: the records of one location, following the links from `first`. */
  method WriteList(json: string, ghost full: string, ss: seq<Sensor>, first: int) returns (next: string)
    requires Linked(ss) && -1 <= first < |ss|
    requires forall k | 0 <= k < |Chain(ss, first)| :: Chain(ss, first)[k] < |ss|
    requires json == Cap(full, LatestSize)
    ensures next == Cap(full + Items(ss, Chain(ss, first)), LatestSize)
  {
    next := json;
    ghost var written := full;
    var prefix := "";
    var i := first;
    ghost var visited: seq<nat> := [];
    while i >= 0
      invariant -1 <= i < |ss|
      invariant visited + Chain(ss, i) == Chain(ss, first)
      invariant forall k | 0 <= k < |visited| :: visited[k] < |ss|
      invariant written == full + Items(ss, visited)
      invariant next == Cap(written, LatestSize)
      invariant prefix == Sep(|visited|)
      decreases i + 1
    {
      next := WriteItem(next, written, prefix, ss[i]);
      ItemsStep(ss, visited, i);
      Regroup3(full, Items(ss, visited), LatestItem(prefix, ss[i]));
      written := written + LatestItem(prefix, ss[i]);
      prefix := ",";
      Regroup3(visited, [i as nat], Chain(ss, ss[i].next));
      visited := visited + [i as nat];
      i := ss[i].next;
    }
    assert visited + [] == visited;
  }

  /** One location of housesensor_db_latest: its name, then the list of its records. */
  method WriteGroup(json: string, ghost full: string, ss: seq<Sensor>, locs: seq<Location>, j: nat, prefix: string)
    returns (next: string)
    requires Linked(ss) && Heads(ss, locs) && j < |locs| && prefix == Sep(j)
    requires json == Cap(full, LatestSize)
    ensures next == Cap(full + Group(ss, locs, j), LatestSize)
  {
    ChainBound(ss, locs[j].first);
    ghost var opening := full + GroupOpen(prefix, locs[j]);
    next := Append(json, full, GroupOpen(prefix, locs[j]), LatestSize);
    next := WriteList(next, opening, ss, locs[j].first);
    next := Append(next, opening + Items(ss, Chain(ss, locs[j].first)), "]", LatestSize);
    Regroup(full, GroupOpen(prefix, locs[j]), Items(ss, Chain(ss, locs[j].first)), "]");
  }

  /** What the buffer is meant to hold after the opening and groups 0 to j-1. */
  function Upto(host: string, proxy: string, now: int, ss: seq<Sensor>, locs: seq<Location>, j: nat): string
    requires Linked(ss) && Heads(ss, locs) && j <= |locs|
  {
    LatestHead(host, proxy, now) + Groups(ss, locs, j)
  }

  lemma UptoNext(host: string, proxy: string, now: int, ss: seq<Sensor>, locs: seq<Location>, j: nat)
    requires Linked(ss) && Heads(ss, locs) && j < |locs|
    ensures Upto(host, proxy, now, ss, locs, j) + Group(ss, locs, j) == Upto(host, proxy, now, ss, locs, j + 1)
  {
    Regroup3(LatestHead(host, proxy, now), Groups(ss, locs, j), Group(ss, locs, j));
  }

  /** The body of housesensor_db_latest over the sensor and location tables. */
  method Render(ss: seq<Sensor>, locs: seq<Location>, host: string, proxy: string, now: int) returns (json: string)
    requires Linked(ss) && Heads(ss, locs)
    ensures json == Cap(LatestDoc(host, proxy, now, ss, locs), LatestSize)
  {
    json := Cap(LatestHead(host, proxy, now), LatestSize);
    var prefix := "";
    var j := 0;
    while j < |locs|
      invariant 0 <= j <= |locs|
      invariant json == Cap(Upto(host, proxy, now, ss, locs, j), LatestSize)
      invariant prefix == Sep(j)
    {
      json := WriteGroup(json, Upto(host, proxy, now, ss, locs, j), ss, locs, j, prefix);
      UptoNext(host, proxy, now, ss, locs, j);
      prefix := ",";
      j := j + 1;
    }
    json := Append(json, Upto(host, proxy, now, ss, locs, j), "}}", LatestSize);
  }
}
