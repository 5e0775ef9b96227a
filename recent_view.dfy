/**
 * housesensor_db_recent: the events of the ring, oldest first, each with the
 * location and name of its record. The text is written piece by piece into a
 * static buffer of SENSOR_EVENT_DEPTH*64 bytes.
 */
module RecentView {
  import opened Text
  import opened Snprintf
  import opened Store
  import opened Ring

  const RecentSize := Depth * 64

  /** The start of `,"value":`. */
  const ValueKey := ",\"value\":"

  /** An event in the recent view: location and name from its record, with that record's current unit. */
  function RecentItem(prefix: string, s: Sensor, e: Event): string
  {
    prefix + "{\"location\":\"" + s.location + "\",\"name\":\"" + s.name + "\",\"time\":" + Dec(e.timestamp)
    + EventValue(s, e)
  }

  /** The event's value: bare with the record's unit when it has one, quoted otherwise. */
  function EventValue(s: Sensor, e: Event): string
  {
    if s.unit != "" then ValueKey + e.value + ",\"unit\":\"" + s.unit + "\"}"
    else ValueKey + "\"" + e.value + "\"}"
  }

  /** Events that name a record of the table. */
  predicate Refers(evs: seq<Event>, n: nat)
  {
    forall k | 0 <= k < |evs| :: IsLive(evs[k]) && evs[k].sensor.value < n
  }

  function RecentItems(ss: seq<Sensor>, evs: seq<Event>): string
    requires Refers(evs, |ss|)
  {
    if evs == [] then ""
    else
      var e := evs[|evs| - 1];
      RecentItems(ss, evs[..|evs| - 1]) + RecentItem(Sep(|evs| - 1), ss[e.sensor.value], e)
  }

  function RecentHead(host: string, now: int): string
  {
    "{\"sensor\":{\"timestamp\":" + Dec(now) + ",\"host\":\"" + host + "\",\"recent\":["
  }

  function RecentDoc(host: string, now: int, ss: seq<Sensor>, evs: seq<Event>): string
    requires Refers(evs, |ss|)
  {
    RecentHead(host, now) + RecentItems(ss, evs) + "]}}"
  }

  /** The live events of slots that all name records below n name records below n. */
  lemma {:induction false} LiveRefers(v: seq<Event>, n: nat)
    requires forall k | 0 <= k < |v| :: IsLive(v[k]) ==> v[k].sensor.value < n
    ensures Refers(Live(v), n)
  {
    if v != [] {
      LiveRefers(v[1..], n);
    }
  }

  lemma RecentItemsStep(ss: seq<Sensor>, evs: seq<Event>, e: Event)
    requires Refers(evs, |ss|) && IsLive(e) && e.sensor.value < |ss|
    ensures Refers(evs + [e], |ss|)
    ensures RecentItems(ss, evs + [e]) == RecentItems(ss, evs) + RecentItem(Sep(|evs|), ss[e.sensor.value], e)
  {
    assert (evs + [e])[..|evs|] == evs;
  }

  /** One event of the recent view, written as its record's location and name with its time, then its value. */
  method WriteEvent(json: string, ghost full: string, prefix: string, s: Sensor, e: Event) returns (next: string)
    requires json == Cap(full, RecentSize)
    ensures next == Cap(full + RecentItem(prefix, s, e), RecentSize)
  {
    var head := prefix + "{\"location\":\"" + s.location + "\",\"name\":\"" + s.name + "\",\"time\":" + Dec(e.timestamp);
    next := Append(json, full, head, RecentSize);
    var value: string;
    if s.unit != "" {
      value := ",\"value\":" + e.value + ",\"unit\":\"" + s.unit + "\"}";
    } else {
      value := ",\"value\":\"" + e.value + "\"}";
    }
    assert value == EventValue(s, e);
    next := Append(next, full + head, value, RecentSize);
    Regroup3(full, head, value);
  }

  /** A cleared slot adds nothing to the events read so far. */
  lemma LiveSkip(v: seq<Event>, k: nat)
    requires k < |v| && !IsLive(v[k])
    ensures Live(v[..k + 1]) == Live(v[..k])
  {
    assert v[..k + 1] == v[..k] + [v[k]];
    LiveConcat(v[..k], [v[k]]);
    assert [v[k]][1..] == [];
  }

  /** A live slot adds its event after those read so far. */
  lemma LiveKeep(v: seq<Event>, k: nat)
    requires k < |v| && IsLive(v[k])
    ensures Live(v[..k + 1]) == Live(v[..k]) + [v[k]]
  {
    assert v[..k + 1] == v[..k] + [v[k]];
    LiveConcat(v[..k], [v[k]]);
    assert [v[k]][1..] == [];
  }

  /** Where the reader's index stands after k slots, before it wraps: Depth means it is about to wrap to 0. */
  function At(c: nat, k: nat): nat
  {
    if c + 1 + k <= Depth then c + 1 + k else c + 1 + k - Depth
  }

  /** The index the reader holds after k slots is slot k of the visit, once wrapped. */
  lemma AtSlot(c: nat, k: nat)
    requires c < Depth && k <= Depth - 1
    ensures At(c, k) <= Depth
    ensures k == Depth - 1 ==> At(c, k) == c || (c == 0 && At(c, k) == Depth)
    ensures k < Depth - 1 && At(c, k) < Depth ==> At(c, k) == Slot(c, k)
    ensures k < Depth - 1 && At(c, k) == Depth ==> Slot(c, k) == 0
    ensures At(c, k) == c ==> k == Depth - 1
  {
  }

  /** One step of the reader: wrap if at the end, then move on. */
  lemma AtNext(c: nat, k: nat)
    requires c < Depth && k < Depth - 1
    ensures At(c, k + 1) == (if At(c, k) >= Depth then 0 else At(c, k)) + 1
    ensures At(c, k + 1) == c <==> k + 1 == Depth - 1 && c != 0
  {
  }

  /**
   * What the reader has written after k slots of v: the live events among
   * them, each with its record, after the head, as far as the buffer holds.
   */
  ghost predicate Wrote(ss: seq<Sensor>, v: seq<Event>, k: nat, host: string, now: int,
                        shown: seq<Event>, full: string, json: string, prefix: string)
  {
    && k <= |v|
    && shown == Live(v[..k])
    && Refers(shown, |ss|)
    && full == RecentHead(host, now) + RecentItems(ss, shown)
    && json == Cap(full, RecentSize)
    && prefix == Sep(|shown|)
  }

  /** One slot of the reader: a live event is written after those before it, a cleared one is skipped. */
  method WriteSlot(ss: seq<Sensor>, ghost v: seq<Event>, ghost k: nat, e: Event, host: string, now: int,
                   json: string, ghost full: string, ghost shown: seq<Event>, prefix: string)
    returns (json': string, ghost full': string, ghost shown': seq<Event>, prefix': string)
    requires k < |v| && v[k] == e && (IsLive(e) ==> e.sensor.value < |ss|)
    requires Wrote(ss, v, k, host, now, shown, full, json, prefix)
    ensures Wrote(ss, v, k + 1, host, now, shown', full', json', prefix')
  {
    if e.sensor.Some? {
      LiveKeep(v, k);
      RecentItemsStep(ss, shown, e);
      Regroup3(RecentHead(host, now), RecentItems(ss, shown), RecentItem(prefix, ss[e.sensor.value], e));
      json' := WriteEvent(json, full, prefix, ss[e.sensor.value], e);
      full' := full + RecentItem(prefix, ss[e.sensor.value], e);
      shown' := shown + [e];
      prefix' := ",";
    } else {
      LiveSkip(v, k);
      json', full', shown', prefix' := json, full, shown, prefix;
    }
  }

  /**
   * One turn of the reader's loop: at the end of the ring the index wraps to
   * 0, which ends the loop when the cursor is 0; otherwise the slot is written.
   */
  method Turn(ss: seq<Sensor>, slots: array<Event>, cursor: nat, i: nat, ghost k: nat, host: string, now: int,
              json: string, ghost full: string, ghost shown: seq<Event>, prefix: string)
    returns (stop: bool, i': nat, ghost k': nat, json': string, ghost full': string, ghost shown': seq<Event>, prefix': string)
    requires slots.Length == Depth && cursor < Depth
    requires forall j | 0 <= j < Depth :: IsLive(slots[j]) ==> slots[j].sensor.value < |ss|
    requires k <= Depth - 1 && i == At(cursor, k) && i != cursor
    requires Wrote(ss, Visit(slots[..], cursor), k, host, now, shown, full, json, prefix)
    ensures stop ==> k' == k == Depth - 1
    ensures !stop ==> k' == k + 1 <= Depth - 1 && i' == At(cursor, k')
    ensures Wrote(ss, Visit(slots[..], cursor), k', host, now, shown', full', json', prefix')
  {
    ghost var v := Visit(slots[..], cursor);
    AtSlot(cursor, k);
    i' := i;
    if i' >= Depth {
      i' := 0;
      if cursor == 0 {
        return true, i', k, json, full, shown, prefix;
      }
    }
    AtNext(cursor, k);
    assert i' == Slot(cursor, k) && slots[i'] == v[k];
    json', full', shown', prefix' := WriteSlot(ss, v, k, slots[i'], host, now, json, full, shown, prefix);
    stop, k' := false, k + 1;
    i' := i' + 1;
  }

  /** The body of housesensor_db_recent over the sensor table and the event ring. */
  method Render(ss: seq<Sensor>, slots: array<Event>, cursor: nat, host: string, now: int) returns (json: string)
    requires slots.Length == Depth && cursor < Depth
    requires forall i | 0 <= i < Depth :: IsLive(slots[i]) ==> slots[i].sensor.value < |ss|
    ensures Refers(Live(Visit(slots[..], cursor)), |ss|)
    ensures json == Cap(RecentDoc(host, now, ss, Live(Visit(slots[..], cursor))), RecentSize)
  {
    ghost var v := Visit(slots[..], cursor);
    ghost var full := RecentHead(host, now);
    ghost var shown: seq<Event> := [];
    json := Cap(RecentHead(host, now), RecentSize);
    var prefix := "";
    var i := cursor + 1;
    ghost var k := 0;
    assert v[..0] == [];
    while i != cursor
      invariant 0 <= k <= Depth - 1
      invariant i == At(cursor, k)
      invariant Wrote(ss, v, k, host, now, shown, full, json, prefix)
      decreases Depth - k
    {
      var stop;
      stop, i, k, json, full, shown, prefix := Turn(ss, slots, cursor, i, k, host, now, json, full, shown, prefix);
      if stop {
        break;
      }
    }
    AtSlot(cursor, k);
    assert k == Depth - 1 && v[..k] == v;
    json := Append(json, full, "]}}", RecentSize);
  }
}
