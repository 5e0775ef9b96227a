/**
 * The archival side of housesensor_db.c: the daily archive names, the backup
 * command, the state machine run by housesensor_db_background, and the check
 * made at startup so that a restart just after midnight does not archive the
 * new day's log under yesterday's name.
 *
 * The clock and localtime are inputs: a tick gives `now` together with the
 * broken-down time of `now - 3600` and of `now`.
 */
module Archive {
  import opened Maybe
  import opened Text
  import opened Snprintf

  /** SensorLogName: the live CSV log. */
  const LogName := "/dev/shm/housesensor.csv"
  /** SensorArchiveDir: where daily archives go. */
  const ArchiveDir := "/var/lib/house/sensor"

  /** The fields of struct tm that are used, with its conventions (years since 1900, months from 0). */
  datatype Tm = Tm(year: int, mon: int, mday: int, hour: int)

  /** A date localtime can produce whose year has at most four digits. */
  predicate Plausible(t: Tm)
  {
    0 <= t.year + 1900 <= 9999 && 0 <= t.mon <= 11 && 1 <= t.mday <= 31 && 0 <= t.hour <= 23
  }

  /** printf's `%0<width>d`: zero-padded to width, the sign counting in the width. */
  function ZeroPadded(n: int, width: nat): (r: string)
    ensures n >= 0 ==> AllDigits(r) && ValueOf(r) == n
    ensures 0 <= n < Pow10(width) && 1 <= width ==> |r| == width
  {
    PadValue(if n < 0 then -n else n, width);
    if n < 0 then "-" + Pad(-n, if width > 0 then width - 1 else 0) else Pad(n, width)
  }

  /** SensorArchiveFormat, `%04d-%02d-%02d.csv`, applied to the year, month and day of t. */
  function ArchiveName(t: Tm): string
  {
    ZeroPadded(t.year + 1900, 4) + "-" + ZeroPadded(t.mon + 1, 2) + "-" + ZeroPadded(t.mday, 2) + ".csv"
  }

  /** Reads back the calendar date (year, month 1-12, day) from a name of the archive form. */
  function ParseArchiveName(s: string): (r: Option<(nat, nat, nat)>)
    ensures r.Some? ==> |s| == 14 && s[4] == '-' && s[7] == '-' && s[10..] == ".csv"
  {
    if |s| == 14 && AllDigits(s[..4]) && s[4] == '-' && AllDigits(s[5..7]) && s[7] == '-'
       && AllDigits(s[8..10]) && s[10..] == ".csv"
    then Some((ValueOf(s[..4]), ValueOf(s[5..7]), ValueOf(s[8..10])))
    else None
  }

  /** Every plausible date gets a 14-character name from which the date reads back. */
  lemma ArchiveNameParses(t: Tm)
    requires Plausible(t)
    ensures |ArchiveName(t)| == 14
    ensures ParseArchiveName(ArchiveName(t)) == Some(((t.year + 1900) as nat, (t.mon + 1) as nat, t.mday as nat))
  {
    assert Pow10(2) == 100 && Pow10(4) == 10000;
    var y, m, d := ZeroPadded(t.year + 1900, 4), ZeroPadded(t.mon + 1, 2), ZeroPadded(t.mday, 2);
    var s := ArchiveName(t);
    assert s == y + "-" + m + "-" + d + ".csv";
    assert s[..4] == y && s[5..7] == m && s[8..10] == d && s[10..] == ".csv";
  }

  /** An archive name starts with a digit of the year, never with a dot. */
  lemma ArchiveNameLead(t: Tm)
    requires Plausible(t)
    ensures |ArchiveName(t)| > 0 && IsDigit(ArchiveName(t)[0])
  {
    ArchiveNameParses(t);
    var s := ArchiveName(t);
    assert AllDigits(s[..4]);
    assert s[..4][0] == s[0];
  }

  /** Two plausible dates share an archive name only if they are the same day. */
  lemma ArchiveNameInjective(t: Tm, u: Tm)
    requires Plausible(t) && Plausible(u) && ArchiveName(t) == ArchiveName(u)
    ensures t.year == u.year && t.mon == u.mon && t.mday == u.mday
  {
    ArchiveNameParses(t);
    ArchiveNameParses(u);
  }

  /** The two system() commands housesensor_db_backup issues. */
  datatype Method = Mv | Cp

  function MethodName(m: Method): string
  {
    match m
    case Mv => "mv"
    case Cp => "cp"
  }

  /** An archive action: which command, for which day. */
  datatype Backup = Backup(how: Method, day: Tm)

  /** The command line, built in a 1024-byte buffer from an archive name built in a 256-byte one. */
  function Command(b: Backup): (r: string)
    ensures |r| < 1024
  {
    Cap(MethodName(b.how) + " " + LogName + " " + ArchiveDir + "/" + Cap(ArchiveName(b.day), 256), 1024)
  }

  /** For a plausible day no buffer truncates: the command moves or copies the log to the day's archive. */
  lemma CommandWhole(b: Backup)
    requires Plausible(b.day)
    ensures Command(b) == MethodName(b.how) + " " + LogName + " " + ArchiveDir + "/" + ArchiveName(b.day)
  {
    ArchiveNameParses(b.day);
  }

  /** The statics the background function reads and updates. */
  datatype Sched = Sched(logOpen: bool, lastWrite: int, lastMove: int, lastHourly: int)

  /** The log has been open and idle for more than 10 seconds. */
  predicate Quiet(s: Sched, now: int)
  {
    s.logOpen && now > s.lastWrite + 10
  }

  /** One housesensor_db_background tick; `before` is localtime(now - 3600), `current` localtime(now). */
  function Step(s: Sched, now: int, before: Tm, current: Tm): (Sched, Option<Backup>)
  {
    if !Quiet(s, now) then (s, None)
    else if before.hour == 23 && now > s.lastMove + 3601 then
      (s.(logOpen := false, lastMove := now, lastHourly := now), Some(Backup(Mv, before)))
    else if now - 3600 > s.lastHourly then
      (s.(logOpen := false, lastHourly := now), Some(Backup(Cp, current)))
    else (s.(logOpen := false), None)
  }

  /** A tick does anything only when the log is quiet, and then it always closes the log. */
  lemma StepOnlyWhenQuiet(s: Sched, now: int, before: Tm, current: Tm)
    ensures !Quiet(s, now) ==> Step(s, now, before, current) == (s, None)
    ensures Quiet(s, now) ==> !Step(s, now, before, current).0.logOpen
    ensures Step(s, now, before, current).0.lastWrite == s.lastWrite
  {
  }

  /**
   * The daily move happens exactly when the log is quiet, the hour an hour ago
   * was 23 and no move happened in the last 3601 seconds; it archives under
   * the date of an hour ago and resets both timestamps.
   */
  lemma StepMoves(s: Sched, now: int, before: Tm, current: Tm)
    ensures var (s', b) := Step(s, now, before, current);
            (b.Some? && b.value.how == Mv) <==> (Quiet(s, now) && before.hour == 23 && now > s.lastMove + 3601)
    ensures var (s', b) := Step(s, now, before, current);
            b.Some? && b.value.how == Mv ==> b.value.day == before && s'.lastMove == now && s'.lastHourly == now
  {
  }

  /**
   * The hourly copy happens exactly when the log is quiet, no move is due and
   * the last hourly backup is more than an hour old; it copies under today's
   * date and leaves the last move alone.
   */
  lemma StepCopies(s: Sched, now: int, before: Tm, current: Tm)
    ensures var (s', b) := Step(s, now, before, current);
            (b.Some? && b.value.how == Cp) <==>
            (Quiet(s, now) && !(before.hour == 23 && now > s.lastMove + 3601) && now - 3600 > s.lastHourly)
    ensures var (s', b) := Step(s, now, before, current);
            b.Some? && b.value.how == Cp ==> b.value.day == current && s'.lastHourly == now && s'.lastMove == s.lastMove
  {
  }

  /** After a move, no tick within the next 3601 seconds moves again, whatever the hour. */
  lemma NoSecondMove(s: Sched, now: int, before: Tm, current: Tm, s2: Sched, later: int, before2: Tm, current2: Tm)
    requires Step(s, now, before, current).1 == Some(Backup(Mv, before))
    requires s2.lastMove == Step(s, now, before, current).0.lastMove
    requires later <= now + 3601
    ensures Step(s2, later, before2, current2).1.None? || Step(s2, later, before2, current2).1.value.how != Mv
  {
    StepMoves(s, now, before, current);
  }

  /**
   * The startup check as written: if an hour ago was 23h and a file by
   * yesterday's archive name can be opened, the last move is set to now.
   * `openable` holds the names fopen would open; a name without a directory
   * is looked up in the process's working directory.
   */
  function ReconcileAsWritten(s: Sched, now: int, yesterday: Tm, openable: set<string>): (r: Sched)
    ensures r.logOpen == s.logOpen && r.lastWrite == s.lastWrite && r.lastHourly == s.lastHourly
    ensures r.lastMove != s.lastMove ==> yesterday.hour == 23 && r.lastMove == now
    ensures yesterday.hour == 23 && Cap(ArchiveName(yesterday), 1024) in openable ==> r.lastMove == now
    ensures !(yesterday.hour == 23 && Cap(ArchiveName(yesterday), 1024) in openable) ==> r == s
  {
    if yesterday.hour == 23 && Cap(ArchiveName(yesterday), 1024) in openable
    then s.(lastMove := now - 3600 + 3600) else s
  }

  /** The archive of a day, where the daily move puts it. */
  function ArchivePath(t: Tm): string
  {
    ArchiveDir + "/" + ArchiveName(t)
  }

  /** The startup check as intended: it looks for yesterday's archive where the move puts it. */
  function Reconcile(s: Sched, now: int, yesterday: Tm, openable: set<string>): (r: Sched)
    ensures r.logOpen == s.logOpen && r.lastWrite == s.lastWrite && r.lastHourly == s.lastHourly
    ensures r.lastMove == if yesterday.hour == 23 && ArchivePath(yesterday) in openable then now else s.lastMove
  {
    if yesterday.hour == 23 && ArchivePath(yesterday) in openable
    then s.(lastMove := now) else s
  }

  /**
   * The relative name misses the archive: with yesterday's archive in the
   * archive directory only, a start just after midnight followed by the
   * first quiet tick moves the new log over yesterday's archive; with the
   * intended check the move is held back.
   */
  lemma ReconcileMissesArchive(s: Sched, now: int, yesterday: Tm, later: int, current: Tm)
    requires Plausible(yesterday) && yesterday.hour == 23
    requires s.logOpen && s.lastMove == 0 && s.lastWrite + 10 < later && now <= later <= now + 3601
    requires 3601 < later
    ensures var s1 := ReconcileAsWritten(s, now, yesterday, {ArchivePath(yesterday)});
            Step(s1, later, yesterday, current).1 == Some(Backup(Mv, yesterday))
    ensures var s1 := Reconcile(s, now, yesterday, {ArchivePath(yesterday)});
            Step(s1, later, yesterday, current).1 != Some(Backup(Mv, yesterday))
  {
    ArchiveNameParses(yesterday);
    assert |Cap(ArchiveName(yesterday), 1024)| == 14;
    assert |ArchivePath(yesterday)| == |ArchiveDir| + 15;
  }

  /** `%10.10s`: at most 10 characters, padded with spaces on the left to 10. */
  function HistoryEntry(name: string): (r: string)
    ensures |r| == 10
    ensures |name| >= 10 ==> r == name[..10]
    ensures |name| < 10 ==> r == seq(10 - |name|, _ => ' ') + name
  {
    var cut := if |name| > 10 then name[..10] else name;
    seq(10 - |cut|, _ => ' ') + cut
  }

  /** The history entry of an archive is the date part of its name, YYYY-MM-DD. */
  lemma HistoryEntryOfArchive(t: Tm)
    requires Plausible(t)
    ensures |ArchiveName(t)| == 14
    ensures HistoryEntry(ArchiveName(t)) == ArchiveName(t)[..10]
    ensures var e := HistoryEntry(ArchiveName(t));
            AllDigits(e[..4]) && ValueOf(e[..4]) == t.year + 1900 && e[4] == '-'
            && AllDigits(e[5..7]) && ValueOf(e[5..7]) == t.mon + 1 && e[7] == '-'
            && AllDigits(e[8..10]) && ValueOf(e[8..10]) == t.mday
  {
    ArchiveNameParses(t);
    var s := ArchiveName(t);
    assert s[..10][..4] == s[..4] && s[..10][5..7] == s[5..7] && s[..10][8..10] == s[8..10];
  }
}
