/**
 * housesensor_db_history: the days for which an archive exists, read from
 * the archive directory's listing, which is an input: None when the directory
 * cannot be opened, otherwise the names readdir returns in its order.
 */
module HistoryView {
  import opened Maybe
  import opened Text
  import opened Snprintf
  import opened Archive

  const HistorySize := 65537

  /** Names starting with a dot are not listed. */
  predicate Hidden(name: string)
  {
    |name| > 0 && name[0] == '.'
  }

  /** readdir's names without the hidden ones, in readdir's order. */
  function Visible(names: seq<string>): seq<string>
  {
    if names == [] then []
    else
      var n := names[|names| - 1];
      Visible(names[..|names| - 1]) + (if Hidden(n) then [] else [n])
  }

  /** Visible keeps exactly the names that are not hidden. */
  lemma {:induction false} VisibleSpec(names: seq<string>)
    ensures forall n :: n in Visible(names) <==> n in names && !Hidden(n)
  {
    if names != [] {
      var m := |names| - 1;
      VisibleSpec(names[..m]);
      assert names == names[..m] + [names[m]];
    }
  }

  /** One quoted YYYY-MM-DD entry, after a comma unless it is the first. */
  function Entry(prefix: string, name: string): string
  {
    prefix + "\"" + HistoryEntry(name) + "\""
  }

  function Entries(names: seq<string>): string
  {
    if names == [] then ""
    else Entries(names[..|names| - 1]) + Entry(Sep(|names| - 1), names[|names| - 1])
  }

  function HistoryHead(host: string, now: int): string
  {
    "{\"sensor\":{\"timestamp\":" + Dec(now) + ",\"host\":\"" + host + "\",\"history\":["
  }

  /** The history document; `dir` is the archive directory's listing, None when it cannot be opened. */
  function HistoryDoc(host: string, now: int, dir: Option<seq<string>>): string
  {
    HistoryHead(host, now) + (if dir.Some? then Entries(Visible(dir.value)) else "") + "]}}"
  }

  lemma VisibleSkip(names: seq<string>, i: nat)
    requires i < |names| && Hidden(names[i])
    ensures Visible(names[..i + 1]) == Visible(names[..i])
  {
    assert names[..i + 1][..i] == names[..i];
  }

  lemma VisibleKeep(names: seq<string>, i: nat)
    requires i < |names| && !Hidden(names[i])
    ensures Visible(names[..i + 1]) == Visible(names[..i]) + [names[i]]
  {
    assert names[..i + 1][..i] == names[..i];
  }

  lemma EntriesStep(names: seq<string>, n: string)
    ensures Entries(names + [n]) == Entries(names) + Entry(Sep(|names|), n)
  {
    assert (names + [n])[..|names|] == names;
  }

  /** housesensor_db_history: the days for which an archive exists, as YYYY-MM-DD. */
  method History(host: string, now: int, dir: Option<seq<string>>) returns (json: string)
    ensures json == Cap(HistoryDoc(host, now, dir), HistorySize)
  {
    if dir.None? {
      json := Cap(HistoryHead(host, now) + "]}}", HistorySize);
      return;
    }
    var names := dir.value;
    ghost var full := HistoryHead(host, now);
    ghost var shown: seq<string> := [];
    json := Cap(HistoryHead(host, now), HistorySize);
    var prefix := "";
    var i := 0;
    while i < |names|
      invariant 0 <= i <= |names|
      invariant shown == Visible(names[..i])
      invariant full == HistoryHead(host, now) + Entries(shown)
      invariant json == Cap(full, HistorySize)
      invariant prefix == Sep(|shown|)
    {
      var name := names[i];
      if Hidden(name) {
        VisibleSkip(names, i);
      } else {
        VisibleKeep(names, i);
        var entry := prefix + "\"" + HistoryEntry(name) + "\"";
        EntriesStep(shown, name);
        Regroup3(HistoryHead(host, now), Entries(shown), entry);
        json := Append(json, full, entry, HistorySize);
        full := full + entry;
        shown := shown + [name];
        prefix := ",";
      }
      i := i + 1;
    }
    assert names[..i] == names;
    json := Append(json, full, "]}}", HistorySize);
  }

  /** The history lists one YYYY-MM-DD entry per archive, whatever else the directory holds with a dot. */
  lemma HistoryOfArchives(days: seq<Tm>, names: seq<string>)
    requires |days| == |names| && forall k | 0 <= k < |days| :: Plausible(days[k]) && names[k] == ArchiveName(days[k])
    ensures Visible(names) == names
    ensures forall k | 0 <= k < |names| :: HistoryEntry(names[k]) == ArchiveName(days[k])[..10]
  {
    ArchivesShown(days, names);
    ArchiveEntries(days, names);
  }

  lemma ArchivesShown(days: seq<Tm>, names: seq<string>)
    requires |days| == |names| && forall k | 0 <= k < |days| :: Plausible(days[k]) && names[k] == ArchiveName(days[k])
    ensures Visible(names) == names
  {
    forall k | 0 <= k < |names| ensures !Hidden(names[k]) {
      ArchiveNameLead(days[k]);
    }
    VisibleAll(names);
  }

  lemma ArchiveEntries(days: seq<Tm>, names: seq<string>)
    requires |days| == |names| && forall k | 0 <= k < |days| :: Plausible(days[k]) && names[k] == ArchiveName(days[k])
    ensures forall k | 0 <= k < |names| :: |ArchiveName(days[k])| == 14
    ensures forall k | 0 <= k < |names| :: HistoryEntry(names[k]) == ArchiveName(days[k])[..10]
  {
    forall k | 0 <= k < |names|
      ensures |ArchiveName(days[k])| == 14 && HistoryEntry(names[k]) == ArchiveName(days[k])[..10]
    {
      HistoryEntryOfArchive(days[k]);
    }
  }

  /** A listing without hidden names is shown whole. */
  lemma {:induction false} VisibleAll(names: seq<string>)
    requires forall k | 0 <= k < |names| :: !Hidden(names[k])
    ensures Visible(names) == names
  {
    if names != [] {
      var m := |names| - 1;
      VisibleAll(names[..m]);
      assert names[..m] + [names[m]] == names;
    }
  }
}
