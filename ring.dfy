/**
 * The event ring of housesensor_db.c (SensorEventLog, SensorEventCursor and
 * SensorEventAdd): a fixed array of slots written at a cursor that wraps
 * around, with the slot after the last write always cleared so that a reader
 * starting just after the cursor sees the events oldest first.
 */
module Ring {
  import opened Maybe

  /** SENSOR_EVENT_DEPTH, SENSOR_DATABASE_BLOCK * 128. */
  const Depth := 8192

  /**
   * SensorEvent. The sensor pointer is the index of the record in the sensor
   * table, or None for a cleared slot.
   */
  datatype Event = Event(sensor: Option<nat>, timestamp: int, value: string)

  /** A slot of the statically zeroed array: no sensor, time 0, no value. */
  const Cleared := Event(None, 0, "")

  predicate IsLive(e: Event)
  {
    e.sensor.Some?
  }

  /** The cursor after one write. */
  function Next(c: nat): (r: nat)
    requires c < Depth
    ensures r < Depth && r == (c + 1) % Depth
  {
    if c + 1 >= Depth then 0 else c + 1
  }

  /** The k-th slot read after cursor c, wrapping past the end. */
  function Slot(c: nat, k: nat): (r: nat)
    requires c < Depth && k < Depth - 1
    ensures r < Depth && r != c && r == (c + 1 + k) % Depth
  {
    if c + 1 + k < Depth then c + 1 + k else c + 1 + k - Depth
  }

  /** The slots from the one after the cursor round to the one before it, in that order. */
  function Visit(slots: seq<Event>, c: nat): (r: seq<Event>)
    requires |slots| == Depth && c < Depth
    ensures |r| == Depth - 1
  {
    seq(Depth - 1, k requires 0 <= k < Depth - 1 => slots[Slot(c, k)])
  }

  /** The events that are not cleared, in order. */
  function Live(v: seq<Event>): seq<Event>
  {
    if v == [] then []
    else (if IsLive(v[0]) then [v[0]] else []) + Live(v[1..])
  }

  /** Live keeps only live events of v, and never more events than v holds. */
  lemma {:induction false} LiveSpec(v: seq<Event>)
    ensures |Live(v)| <= |v|
    ensures forall e | e in Live(v) :: IsLive(e) && e in v
  {
    if v != [] {
      LiveSpec(v[1..]);
    }
  }

  /** What one write leaves in the slots: e at the cursor and the next slot's sensor cleared. */
  function Written(slots: seq<Event>, c: nat, e: Event): (r: seq<Event>)
    requires |slots| == Depth && c < Depth
    ensures |r| == Depth
    ensures r[c] == e && r[Next(c)] == slots[Next(c)].(sensor := None)
    ensures forall i | 0 <= i < Depth && i != c && i != Next(c) :: r[i] == slots[i]
  {
    slots[c := e][Next(c) := slots[Next(c)].(sensor := None)]
  }

  /** A write whose event names a record below n keeps every slot's record below n. */
  lemma WrittenBound(slots: seq<Event>, c: nat, e: Event, n: nat)
    requires |slots| == Depth && c < Depth
    requires forall i | 0 <= i < Depth :: IsLive(slots[i]) ==> slots[i].sensor.value < n
    requires IsLive(e) ==> e.sensor.value < n
    ensures forall i | 0 <= i < Depth :: IsLive(Written(slots, c, e)[i]) ==> Written(slots, c, e)[i].sensor.value < n
  {
  }

  /** The last n elements of s, or all of s when it is shorter. */
  function Last<T>(s: seq<T>, n: nat): (r: seq<T>)
    ensures |r| == if |s| < n then |s| else n
    ensures forall k | 0 <= k < |r| :: r[k] == s[|s| - |r| + k]
  {
    if |s| < n then s else s[|s| - n..]
  }

  /**
   * What the reader sees when the ring has been given `added`: some cleared
   * slots, then the latest Depth-1 events, oldest first.
   */
  predicate Window(v: seq<Event>, added: seq<Event>)
  {
    var w := Last(added, Depth - 1);
    && |v| == Depth - 1
    && (forall k | 0 <= k < Depth - 1 - |w| :: !IsLive(v[k]))
    && v[Depth - 1 - |w|..] == w
  }

  lemma {:induction false} LiveConcat(a: seq<Event>, b: seq<Event>)
    ensures Live(a + b) == Live(a) + Live(b)
  {
    if a == [] {
      assert a + b == b;
    } else {
      assert (a + b)[1..] == a[1..] + b;
      LiveConcat(a[1..], b);
    }
  }

  lemma {:induction false} LiveNone(v: seq<Event>)
    requires forall k | 0 <= k < |v| :: !IsLive(v[k])
    ensures Live(v) == []
  {
    if v != [] {
      LiveNone(v[1..]);
    }
  }

  lemma {:induction false} LiveAll(v: seq<Event>)
    requires forall k | 0 <= k < |v| :: IsLive(v[k])
    ensures Live(v) == v
  {
    if v != [] {
      LiveAll(v[1..]);
    }
  }

  /**
   * Read from the new cursor, the ring after a write shows what it showed
   * before without its first slot, then the new event.
   */
  lemma VisitAfterWrite(slots: seq<Event>, c: nat, e: Event)
    requires |slots| == Depth && c < Depth
    ensures Visit(Written(slots, c, e), Next(c)) == Visit(slots, c)[1..] + [e]
  {
    var after, before := Visit(Written(slots, c, e), Next(c)), Visit(slots, c);
    forall k | 0 <= k < Depth - 1
      ensures after[k] == (before[1..] + [e])[k]
    {
      if k < Depth - 2 {
        assert Slot(Next(c), k) == Slot(c, k + 1);
      } else {
        assert Slot(Next(c), k) == c;
      }
    }
  }

  /** One write keeps the window: cleared slots then the latest events. */
  lemma WindowStep(v: seq<Event>, added: seq<Event>, e: Event)
    requires Window(v, added) && IsLive(e)
    ensures Window(v[1..] + [e], added + [e])
  {
    var w, w' := Last(added, Depth - 1), Last(added + [e], Depth - 1);
    var v' := v[1..] + [e];
    if |added| < Depth - 1 {
      assert w' == w + [e];
      assert v'[Depth - 1 - |w'|..] == v[Depth - 1 - |w|..] + [e];
    } else {
      assert w' == w[1..] + [e];
      assert v[0] == w[0] by { assert v[0..] == w; }
      assert v'[Depth - 1 - |w'|..] == v' == v[1..] + [e];
      assert v[1..] == w[1..];
    }
  }

  /** Cleared slots in front change nothing in what is read. */
  lemma LiveDeadPrefix(v: seq<Event>, m: nat)
    requires m <= |v| && forall k | 0 <= k < m :: !IsLive(v[k])
    ensures Live(v) == Live(v[m..])
  {
    var dead := v[..m];
    assert v == dead + v[m..];
    LiveConcat(dead, v[m..]);
    assert forall k | 0 <= k < |dead| :: dead[k] == v[k];
    LiveNone(dead);
  }

  /**
   * Under the window, the live events read from the ring are exactly the
   * latest Depth-1 events added, oldest first.
   */
  lemma WindowLive(v: seq<Event>, added: seq<Event>)
    requires Window(v, added) && forall k | 0 <= k < |added| :: IsLive(added[k])
    ensures Live(v) == Last(added, Depth - 1)
  {
    var w := Last(added, Depth - 1);
    LiveDeadPrefix(v, Depth - 1 - |w|);
    LiveAll(w);
  }

  /** The fixed event array and its cursor; `added` records every event given to it. */
  class EventLog {
    const slots: array<Event>
    var cursor: nat
    ghost var added: seq<Event>

    ghost predicate Valid()
      reads this, slots
    {
      && slots.Length == Depth
      && cursor < Depth
      && !IsLive(slots[cursor])
      && (forall k | 0 <= k < |added| :: IsLive(added[k]))
      && Window(Visit(slots[..], cursor), added)
    }

    /** The zero-initialised array, cursor 0. */
    constructor ()
      ensures Valid() && fresh(slots) && added == [] && cursor == 0
      ensures forall i | 0 <= i < Depth :: slots[i] == Cleared
    {
      slots := new Event[Depth](_ => Cleared);
      cursor := 0;
      added := [];
      new;
      assert Window(Visit(slots[..], 0), []) by {
        forall k | 0 <= k < Depth - 1 ensures !IsLive(Visit(slots[..], 0)[k]) {
          assert slots[Slot(0, k)] == Cleared;
        }
      }
    }

    /** SensorEventAdd: write at the cursor, advance it with wrap-around, clear the slot it lands on. */
    method Add(e: Event)
      requires Valid() && IsLive(e)
      modifies this, slots
      ensures Valid()
      ensures slots[..] == Written(old(slots[..]), old(cursor), e)
      ensures cursor == Next(old(cursor)) && added == old(added) + [e]
    {
      ghost var before := slots[..];
      slots[cursor] := e;
      cursor := if cursor + 1 >= Depth then 0 else cursor + 1;
      slots[cursor] := slots[cursor].(sensor := None);
      added := added + [e];
      assert slots[..] == Written(before, old(cursor), e);
      VisitAfterWrite(before, old(cursor), e);
      WindowStep(Visit(before, old(cursor)), old(added), e);
    }

    /** The live events read from the slot after the cursor round to the one before it. */
    ghost function Recent(): (r: seq<Event>)
      reads this, slots
      requires Valid()
      ensures r == Last(added, Depth - 1)
      ensures |r| <= Depth - 1
    {
      WindowLive(Visit(slots[..], cursor), added);
      Live(Visit(slots[..], cursor))
    }
  }
}
