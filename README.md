# housesensor: the sensor database and the 1-Wire producer

This project models two parts of housesensor, a small service that collects
readings from home sensors:

- **The sensor database** (`housesensor_db.c`):
  - the tables loaded from the configuration file: sensor records, locations that each chain their records, and options;
  - the enumeration of a driver's devices;
  - `housesensor_db_set`, which updates a record, appends a line to the CSV log and adds an event to a ring of 8192 slots;
  - the three JSON views (latest, recent, history), each written piece by piece into a fixed buffer;
  - the hourly and daily archival of the CSV log;
  - the startup check that avoids archiving a new day under yesterday's name.
- **The 1-Wire producer** (`housesensor_w1.c`):
  - it recognises DS18x20 thermometers;
  - it cuts the temperature out of the kernel's `w1_slave` text;
  - it scans every device registered under driver `w1` once per scan period.

The state the C code updates in place becomes classes:

- `Db.SensorDb` holds the tables, the driver cursor, the archival statics, the CSV log and the commands given to `system()`.
- `Ring.EventLog` holds the event ring. Its slots are an `array`.
- `W1.Scanner` holds `ScanPeriod` and `LastScan`.

Each method is proved against a specification function on values:

- `Tables.AddRecord`, `Tables.Apply` and `Tables.Load` for loading;
- `Store.Updated`, `Ring.Written` and `Archive.Step` for updates;
- `LatestView.LatestDoc`, `RecentView.RecentDoc` and `HistoryView.HistoryDoc` for the views;
- `W1Sample.Sample` and `W1.ScanAll` for the producer.

The properties the program relies on are proved about those functions.

Everything the program gets from outside is a parameter:

- the clock (`now`);
- `localtime` (a `Tm` per tick);
- the host name and the portal server name;
- the configuration file, as the buffers `fgets` returns, or none when it cannot be opened;
- the archive directory's listing;
- the text of each `w1_slave` file that opens;
- whether the CSV log opens (`logOpens`);
- the files `fopen` can open at startup.

`snprintf` into a buffer of `size` bytes is `Snprintf.Cap`: it keeps the first `size - 1` characters. Writing a view piece by piece at `buffer + length` is proved to leave the whole document cut at that size (`Snprintf.Append`).

## Model

| member | source | states |
|---|---|---|
| Snprintf.Cap | housesensor_db.c:338-340 | snprintf keeps a prefix of the text: all of it if it fits, otherwise size-1 characters |
| Snprintf.PutCap | housesensor_db.c:357-359 | appending a piece at `buffer+length` with the space left gives the same text as capping the whole concatenation |
| Snprintf.Append | housesensor_db.c:357-359 | the buffer after an append is the whole document so far, cut to the buffer size |
| Text.IndexOf | housesensor_w1.c:57-60 | strstr: finds the first occurrence at or after `from`, and no earlier one exists; none means no occurrence at all |
| Text.ControlEnd | housesensor_w1.c:62-67 | the cut loop stops at the first character below space; every character before it is printable |
| Text.AtoiDec | housesensor_w1.c:80 | atoi reads a decimal rendering back to the same number |
| Config.LineSplit | housesensor_db.c:137-157 | the tokens are the space-separated words before the line's first control character; more than 16 words is an error (the corrected split, see Findings) |
| Config.WordsFront | housesensor_db.c:141-152 | a line's words are its first word followed by the words of the rest |
| Config.WordsAfterWord | housesensor_db.c:142-151 | a word ends at a space, and the following words start after it |
| Config.SplitAtSpace | housesensor_db.c:142-151 | as written: at a space the pending token is closed and scanning resumes one past the next word's first character |
| Config.SplitAtControl | housesensor_db.c:154-156 | as written: at a control character the pending token is closed and the split ends |
| Config.TrailingSpaceSplit | housesensor_db.c:141-156 | as written, any line `w a \n` splits into three tokens, the third being a newline |
| Config.TrailingSpaceAsWritten | housesensor_db.c:141-156 | as written, `OPTION a \n` gives the tokens OPTION, a and a newline, while its words are only OPTION and a |
| Config.SeventeenTokensAsWritten | housesensor_db.c:143-155 | as written, a line of 17 words splits into 17 tokens without the too-many-tokens exit |
| Tables.AddRecord | housesensor_db.c:165-210 | fails exactly when the location is new and 64 locations exist; otherwise appends one record with the given fields, no value and time 0, puts it at the head of its location's chain, and adds the location only if it is new |
| Tables.AddKnown | housesensor_db.c:205-209 | a record for a known location becomes its chain's head and links to the previous head; the tables stay well formed |
| Tables.AddNew | housesensor_db.c:196-204 | a record for a new location opens a new one-record chain at the end of the location table |
| Tables.Apply | housesensor_db.c:212-234 | applying a decoded line keeps the tables well formed (lines are split by the corrected split, see Findings) |
| Tables.Load | housesensor_db.c:236-254 | loading keeps the tables well formed and adds exactly one option per OPTION line (corrected split, see Findings) |
| Tables.LoadRecords | housesensor_db.c:246-252 | a complete load adds exactly one record per sensor line of the file (corrected split, see Findings) |
| Tables.SkippedLeavesTables | housesensor_db.c:218-232 | comments, blank lines and lines starting with a space, or short OPTION and sensor lines, change nothing |
| Tables.ApplyGrows | housesensor_db.c:212-234 | a line fails exactly when it has more than 16 words or declares a 65th location; otherwise it adds one record per sensor line and one option per OPTION line (corrected split, see Findings) |
| Tables.LoadStep | housesensor_db.c:246-252 | loading n+1 lines is loading n lines and then applying the next one |
| Tables.LoadExit | housesensor_db.c:143-146 | once a line has made the program exit, the whole load fails; this covers too many tokens here, and a 65th location at housesensor_db.c lines 196-201 |
| Tables.UpdateKeeps | housesensor_db.c:291-302 | storing a value keeps the tables well formed |
| Store.Lookup | housesensor_db.c:284-289 | the set search finds the first record with this driver and device; none means no record matches |
| Store.Truncate | housesensor_db.c:292-297 | strncpy plus the final NUL keeps all of a string of at most n characters, and exactly the first n characters of a longer one |
| Store.Updated | housesensor_db.c:291-302 | after a set the value is the given one, or its first 127 characters when longer, and the time is now; a record without a unit takes the supplied unit, or its first 31 characters; a record with a unit keeps it; no unit supplied leaves it empty; identity and link are unchanged |
| Store.UnitSticky | housesensor_db.c:295-298 | once a record has a unit, no sequence of later sets changes it |
| Store.FirstUnitWins | housesensor_db.c:295-298 | the first set that supplies a non-empty unit to a record without one fixes the unit, cut to 31 characters, for every later sequence of sets |
| Store.IndexedShape | housesensor_db.c:291-302 | updates that keep every record's location and link keep the location index right |
| Store.NextOfDriver | housesensor_db.c:266-273 | the next record of a driver at or after the cursor is the first such record; none means no record of the driver remains |
| Store.DevicesFromNext | housesensor_db.c:262-274 | the enumeration from the cursor is the device of the next record of the driver, then the enumeration after it |
| Store.DevicesFromSpec | housesensor_db.c:256-274 | the enumeration lists exactly the devices of the driver's records, at most one per record |
| Store.DevicesShape | housesensor_db.c:291-302 | storing values does not change which devices a driver enumerates |
| Store.FindOption | housesensor_db.c:315-326 | the option lookup returns the value of the first entry with that name; none means no entry has it |
| Store.GroupOf | housesensor_db.c:192-195 | the location search finds an entry with that name; none means no entry has it |
| Store.GroupOfNames | housesensor_db.c:192-196 | a location has an entry exactly when its name is in the table |
| Store.MembersSpec | housesensor_db.c:196-209 | a location's chain holds exactly the records at that location, newest first |
| Store.MembersPush | housesensor_db.c:203-208 | a new record goes in front of its location's chain |
| Store.IndexedAddNew | housesensor_db.c:196-204 | a record for a new location keeps the index right, and the new chain is that record alone |
| Store.IndexedAddKnown | housesensor_db.c:205-209 | a record for a known location keeps the index right, and its chain is the record followed by the old chain |
| Store.InExactlyOneGroup | housesensor_db.c:352-353 | every record lies in the chain of its own location and in no other chain |
| Store.ListingCount | housesensor_db.c:343-379 | the walk of the first n locations meets a record once if its location is among them, otherwise never |
| Store.ListingExactlyOnce | housesensor_db.c:343-379 | the latest view's walk over all locations meets every record exactly once |
| Ring.Next | housesensor_db.c:130-131 | the cursor advances by one and wraps to 0 at 8192 |
| Ring.Slot | housesensor_db.c:402-406 | the k-th slot the recent loop visits is cursor+1+k modulo 8192, and is never the cursor |
| Ring.Written | housesensor_db.c:123-134 | an add writes the event at the cursor and clears the next slot; no other slot changes |
| Ring.LiveSpec | housesensor_db.c:407-408 | the recent view shows only slots that hold an event, and all of them are visited slots |
| Ring.VisitAfterWrite | housesensor_db.c:123-134 | after an add, the walk from the new cursor is the old walk without its oldest slot, followed by the new event |
| Ring.WindowStep | housesensor_db.c:123-134 | the walk stays the window of the events added so far after each add |
| Ring.WindowLive | housesensor_db.c:402-428 | the events the walk shows are the last 8191 events added, oldest first |
| Ring.EventLog.constructor | housesensor_db.c:119-120 | the ring starts with every slot cleared, the cursor at 0 and no event added |
| Ring.EventLog.Add | housesensor_db.c:123-134 | the slots are written as Ring.Written says, the cursor advances, and the event is appended to the history of added events |
| Ring.EventLog.Recent | housesensor_db.c:402-428 | the events the ring shows are the last 8191 events added |
| Archive.ZeroPadded | housesensor_db.c:115 | `%0Nd` writes the digits of n, padded with zeros to N when n fits |
| Archive.ArchiveNameParses | housesensor_db.c:115 | the archive name of a plausible date has the form YYYY-MM-DD.csv and parses back to that year, month and day |
| Archive.ArchiveNameInjective | housesensor_db.c:475-476 | two dates share an archive name only if they are the same day |
| Archive.Command | housesensor_db.c:478-479 | the command always fits its 1024-byte buffer |
| Archive.CommandWhole | housesensor_db.c:470-482 | for a plausible day nothing is cut: the command moves or copies the live log to the day's archive in the archive directory |
| Archive.StepOnlyWhenQuiet | housesensor_db.c:491-494 | a tick does nothing unless the log is open and idle for more than 10 seconds, and then it always closes the log |
| Archive.StepMoves | housesensor_db.c:498-501 | a tick moves the log exactly when it is quiet, an hour ago was 23h and the last move is more than 3601 s old; the move archives under an hour ago's date |
| Archive.StepCopies | housesensor_db.c:503-506 | a tick copies the log exactly when it is quiet, does not move, and the last hourly backup is more than an hour old; the copy archives under today's date |
| Archive.NoSecondMove | housesensor_db.c:498-501 | after a move, no tick in the next 3601 seconds moves the log again |
| Archive.ReconcileAsWritten | housesensor_db.c:527-537 | as written: the startup check sets the last move time to now exactly when an hour ago was 23h and the bare archive name opens; otherwise nothing changes |
| Archive.Reconcile | housesensor_db.c:524-538 | corrected: the last move time becomes now exactly when an hour ago was 23h and that day's archive exists in the archive directory |
| Archive.ReconcileMissesArchive | housesensor_db.c:531-535 | as written, with yesterday's archive already in place, the first quiet tick after a restart at midnight moves the log over it; the corrected check holds it back |
| Archive.HistoryEntry | housesensor_db.c:454-455 | `%10.10s` writes exactly 10 characters: the first 10 of a long enough name, or a shorter name padded with spaces on the left |
| Archive.HistoryEntryOfArchive | housesensor_db.c:454-455 | a history entry of an archive name is its date YYYY-MM-DD, whose fields read back to the year, month and day |
| Db.SensorDb.constructor | housesensor_db.c:98-120 | the statics start empty: no records, locations or options, cursor 0, ring cleared, log closed |
| Db.SensorDb.AddOption | housesensor_db.c:159-163 | appends the option, as Tables.Apply does for an OPTION line, and changes nothing else |
| Db.SensorDb.AddSensor | housesensor_db.c:165-210 | succeeds exactly when Tables.AddRecord does, and then the tables are its result; otherwise they are unchanged |
| Db.SensorDb.FindLocation | housesensor_db.c:192-195 | the loop finds the location's entry as Store.GroupOf specifies |
| Db.SensorDb.DecodeLine | housesensor_db.c:212-234 | the line completes exactly when Tables.Apply succeeds on its directive, and the tables become its result (corrected split, see Findings) |
| Db.SensorDb.DecodeLines | housesensor_db.c:246-252 | the reading loop completes exactly when Tables.Load succeeds on the lines, and the tables are then its result (corrected split, see Findings) |
| Db.SensorDb.LoadConfig | housesensor_db.c:236-254 | a configuration file that cannot be opened makes the program exit with the tables unchanged; otherwise the load completes exactly when Tables.Load succeeds, and the tables are then its result (corrected split, see Findings) |
| Db.SensorDb.DeviceFirst | housesensor_db.c:256-260 | returns the first device of the driver's enumeration, and the cursor is left where the rest of it starts |
| Db.SensorDb.DeviceNext | housesensor_db.c:262-274 | returns the next device of the driver's enumeration from the cursor and moves the cursor past that record; at the end it returns none and leaves the cursor alone |
| Db.SensorDb.NextRecord | housesensor_db.c:266-273 | the loop finds the record Store.NextOfDriver specifies |
| Db.SensorDb.Option | housesensor_db.c:315-326 | returns the value of the first option with that name, or none |
| Db.SensorDb.Find | housesensor_db.c:284-289 | the loop finds the record Store.Lookup specifies |
| Db.SensorDb.Record | housesensor_db.c:291-310 | the record becomes Store.Updated's result; if the log is or becomes open, the CSV line carries the value as given and the last write time becomes now; nothing else changes |
| Db.SensorDb.Put | housesensor_db.c:292-302 | only the record at index i changes |
| Db.SensorDb.Log | housesensor_db.c:303-310 | the CSV line is appended and the last write time set exactly when the log is open or opens |
| Db.SensorDb.EventAdd | housesensor_db.c:123-134 | the ring is written as Ring.Written says with the record's time and value, and the event is appended to the events added |
| Db.SensorDb.Set | housesensor_db.c:276-313 | an unknown driver and device changes nothing; otherwise the record is updated, logged and added to the ring; the number of records, the locations, the options and the cursor never change |
| Db.SensorDb.Background | housesensor_db.c:484-509 | the archival statics follow Archive.Step, one mv or cp command is issued when Step asks for it, and the tables are untouched |
| Db.SensorDb.Initialize | housesensor_db.c:511-539 | loads the configuration as LoadConfig does, exiting when the file cannot be opened; after a complete load the last move time follows Archive.Reconcile (corrected startup check and corrected split, see Findings) |
| LatestView.IndexedHeads | housesensor_db.c:352-353 | with a right index every location's chain starts at a record of the table |
| LatestView.LatestValueQuoting | housesensor_db.c:368-377 | a set value is written as a JSON string exactly when the record has no unit |
| LatestView.WriteItem | housesensor_db.c:355-378 | one record's item is appended to the capped document |
| LatestView.WriteList | housesensor_db.c:352-379 | the items of the location's chain are appended, in chain order |
| LatestView.WriteGroup | housesensor_db.c:343-382 | the location's name and list are appended, after a comma unless it is the first |
| LatestView.Render | housesensor_db.c:328-385 | the buffer holds the latest document cut to 65536 characters: header, then each location with its chain, in table order |
| RecentView.AtSlot | housesensor_db.c:402-406 | the loop index after k steps is the k-th visited slot, and it comes back to the cursor only after 8191 steps |
| RecentView.AtNext | housesensor_db.c:402-406 | each step of the loop index moves to the next slot and wraps past 8191 to 0 |
| RecentView.WriteEvent | housesensor_db.c:413-426 | one event's item is appended to the capped document |
| RecentView.WriteSlot | housesensor_db.c:407-427 | a visited slot adds its item exactly when it holds an event |
| RecentView.Turn | housesensor_db.c:402-406 | one loop turn either ends the walk after 8191 slots or visits the next slot |
| RecentView.Render | housesensor_db.c:387-431 | the buffer holds the recent document of the events in the visited slots, oldest first, cut to the buffer size |
| HistoryView.VisibleSpec | housesensor_db.c:452-453 | the names listed are exactly the directory's names that do not start with a dot |
| HistoryView.History | housesensor_db.c:433-468 | the buffer holds the history document of the listing (or an empty list when the directory cannot be opened), cut to 65536 characters |
| HistoryView.HistoryOfArchives | housesensor_db.c:452-457 | a directory of archives is listed in full, each entry being that archive's date |
| HistoryView.VisibleAll | housesensor_db.c:453 | with no hidden name, the listing is the whole directory |
| Views.Latest | housesensor_db.c:328-385 | the latest view of the database is its latest document over its current tables, cut to the buffer size |
| Views.Shown | housesensor_db.c:402-428 | the recent view shows the last 8191 events ever added, oldest first, each naming an existing record |
| Views.Recent | housesensor_db.c:387-431 | the recent view of the database is the recent document of those events, cut to the buffer size |
| W1Sample.BelongsTo | housesensor_w1.c:35-41 | an id belongs to a list exactly when one of the list's prefixes starts it |
| W1Sample.Ds1820Prefixes | housesensor_w1.c:32 | a DS18x20 thermometer is an id starting with `10-` or `28-` |
| W1Sample.DevicePath | housesensor_w1.c:51 | the path is `/sys/bus/w1/devices/<id>/w1_slave` whenever it fits its 1024-byte buffer |
| W1Sample.LineEnd | housesensor_w1.c:56-58 | fgets reads up to and including the first newline, at most 79 characters |
| W1Sample.TwoLines | housesensor_w1.c:56-58 | a file of two short lines is read back as those two lines |
| W1Sample.Reading | housesensor_w1.c:60-67 | the second line gives a reading exactly when it contains ` t=` |
| W1Sample.ReadingValue | housesensor_w1.c:60-67 | the reading is the printable run right after the first ` t=`, ending at a control character or at the end of the line |
| W1Sample.TagSurvivesCut | housesensor_w1.c:60-67 | the cut never falls inside the ` t=` tag |
| W1Sample.Cut | housesensor_w1.c:62-67 | the loop cuts the line at its first control character after the tag |
| W1Sample.SampleWhen | housesensor_w1.c:54-68 | a device yields a sample exactly when the file is not empty, its first line has ` YES`, the id is a DS18x20 and its second line has ` t=` |
| W1Sample.SampleOfReading | housesensor_w1.c:54-68 | a kernel reading `72 01 YES` then `t=23125` gives the sample 23125 |
| W1Sample.SampleOfBadCrc | housesensor_w1.c:56-57 | a first line without ` YES` (a failed CRC) gives no sample |
| W1Sample.ReadSample | housesensor_w1.c:51-71 | the read follows the C steps and yields W1Sample.Sample of the file, or none when it does not open |
| W1.ReadOne | housesensor_w1.c:43-75 | reading a device never adds, removes or relinks records |
| W1.ReadOneTouchesOnlyW1 | housesensor_w1.c:68 | a read changes only records of driver w1 and adds at most one event, about a w1 record |
| W1.ScanTouchesOnlyW1 | housesensor_w1.c:91-95 | a scan leaves the records of every other driver alone and adds at most one event per device |
| W1.ReadDevice | housesensor_w1.c:43-75 | the database after a read is W1.ReadOne of its state before it; locations, options, cursor and commands are unchanged |
| W1.SetIsStored | housesensor_w1.c:68 | housesensor_db_set with driver w1 and unit Celsius is W1.Stored |
| W1.PeriodFrom | housesensor_w1.c:77-83 | without the option the period is unchanged; with it the period is atoi of the option when that is at least 5, and exactly 5 otherwise |
| W1.PeriodOfDecimal | housesensor_w1.c:80-81 | a decimal option n gives the period n, or 5 when n is below 5 |
| W1.ScanAllSnoc | housesensor_w1.c:92-94 | scanning one more device is reading it after the scan of the others |
| W1.ReadStep | housesensor_w1.c:92-94 | one loop turn reads the current device, keeping the scan invariant |
| W1.ScanStep | housesensor_w1.c:92-95 | one loop turn reads the current device and fetches the next one of the enumeration |
| W1.Scan | housesensor_w1.c:91-95 | the database after the loop is W1.ScanAll over every w1 device of the table, in table order |
| W1.Scanner.constructor | housesensor_w1.c:33 | the period starts at 10 seconds, and the last scan (a static of the background function) at 0 |
| W1.Scanner.Initialize | housesensor_w1.c:77-83 | the period follows W1.PeriodFrom of the `w1.scan.period` option |
| W1.Scanner.Background | housesensor_w1.c:85-98 | before the period has elapsed nothing changes; otherwise every w1 device is scanned and the last scan becomes now |

## Left out

- I/O is not modelled. This covers `fopen`, `fgets`, `fprintf`, `fclose`, `opendir`/`readdir`, `system`, `gethostname`, `time`, `localtime` and `houseportal_server`. Their results are parameters, and what the program writes is kept as sequences (`csv`, `commands`).
- The debug `printf` calls and the `stderr` messages are not modelled. The model keeps only whether the load completes or exits.
- The `-config=` command-line option (`echttp_option_match`) is not modelled. The configuration arrives as the buffers `fgets` returns: lines of at most 1023 characters, so a longer line arrives as several buffers.
- Memory handling is not modelled. This covers `realloc` growth in blocks of 64, the out-of-memory exit, and `strdup`/`free` of tokens and event values. Records and events are values.
- The NUL bytes that `LineSplit` and the cut loop write into their buffers are modelled as taking prefixes.
- `housesensor.c`, `housesensor_db.h` and the other producers are not part of this model.
- An empty `w1_slave` file is not modelled faithfully. In the C code `fgets` then leaves the line buffer uninitialised, and reading it is undefined. The model yields no sample.
- Signed `char` is not modelled. A byte of 128 or more would compare below space in `*eol > 0` and in `buffer[0] > ' '`. The model's characters compare as unsigned values.
- `logOpens` is one value per call. The model does not capture the log failing to open and then opening within one scan.
- Db.SensorDb.AddSensor: requires a unit shorter than 32 characters. The C code copies a longer unit with `strncpy` and no terminating NUL, so the string runs into the `value` field.
- Tables.AddRecord: requires a unit shorter than 32 characters, for the same reason as AddSensor.
- Tables.Apply: requires room for one more option and a short unit, for the same reasons as AddOption and AddSensor.
- Db.SensorDb.AddOption: requires fewer than 128 options. The C code writes past its 128-entry option array without a check.
- Db.SensorDb.DecodeLine: requires room for one more option and a unit shorter than 32 characters, as AddOption and AddSensor do.
- Db.SensorDb.LoadConfig: requires that the file's OPTION lines fit the option array and that every unit is shorter than 32 characters (`Tables.Fits`).
- Db.SensorDb.Initialize: requires the same of the configuration file as LoadConfig.
- Db.SensorDb.DecodeLines: requires the same of its lines as LoadConfig.
- Tables.Load: requires `Tables.Fits`: the file's OPTION lines fit the 128-entry option array, and every unit is shorter than 32 characters. The C code overruns the array, or leaves the unit unterminated.
- Tables.Apply: uses the corrected split, so it does not reproduce the two split defects in Findings (those are shown by Config.TrailingSpaceAsWritten and Config.SeventeenTokensAsWritten).
- Tables.Load: uses the corrected split, so it does not reproduce the two split defects in Findings (those are shown by Config.TrailingSpaceAsWritten and Config.SeventeenTokensAsWritten).
- Db.SensorDb.DecodeLine: uses the corrected split, so it does not reproduce the two split defects in Findings (those are shown by Config.TrailingSpaceAsWritten and Config.SeventeenTokensAsWritten).
- Db.SensorDb.DecodeLines: uses the corrected split, so it does not reproduce the two split defects in Findings (those are shown by Config.TrailingSpaceAsWritten and Config.SeventeenTokensAsWritten).
- Db.SensorDb.LoadConfig: uses the corrected split, so it does not reproduce the two split defects in Findings (those are shown by Config.TrailingSpaceAsWritten and Config.SeventeenTokensAsWritten).
- Db.SensorDb.Initialize: uses the corrected startup check and the corrected split. The as-written check is modelled only by Archive.ReconcileAsWritten.
- The order in which `readdir` lists the archive directory is an input. The model does not choose one.
- Integer widths are not modelled. `time_t` values and the `%ld`/`%d` conversions are unbounded integers.

## Findings

| source | as written | input that shows it | evidently intended | confidence | as-written member | corrected member |
|---|---|---|---|---|---|---|
| housesensor_db.c:141-155 | after a run of spaces the loop's `++i` skips the first character of the next token unchecked, so a space before the newline makes the newline a token | the configuration line `OPTION a \n` gives the tokens `OPTION`, `a` and a newline; the option `a` is stored with a newline as its value instead of the line being rejected as too short | trailing spaces are ignored and the line has the words `OPTION` and `a` | not executed | Config.TrailingSpaceAsWritten | Config.LineSplit |
| housesensor_db.c:143-155 | the too-many-tokens check runs only at a space, so the token after the 16th space is stored at `token[16]` | a line of 17 words gives 17 tokens, written into `char *token[16]` in DecodeLine (line 215) | a line of more than 16 words is refused | not executed | Config.SeventeenTokensAsWritten | Config.LineSplit |
| housesensor_db.c:531-533 | the startup check opens the bare archive name, relative to the working directory, not in the archive directory | a restart just after midnight when yesterday's archive is already in the archive directory: the first quiet tick moves the new day's log over it | the check looks for yesterday's archive in the archive directory, where the move puts it | not executed | Archive.ReconcileMissesArchive | Archive.Reconcile |
