/**
 * What ReadDevice of housesensor_w1.c makes of a device's w1_slave text:
 * the two reads into the 80-byte line buffer, the DS18x20 family test, the
 * search for " t=" and the cut at the first control character.
 */
module W1Sample {
  import opened Maybe
  import opened Text
  import opened Snprintf

  /** DS1820: the family prefixes of the DS18x20 thermometers. */
  const Ds1820: seq<string> := ["10-", "28-"]
  /** The size of the line buffer ReadDevice reads into. */
  const LineSize := 80
  /** The size of the buffer the w1_slave path is built in. */
  const PathSize := 1024

  /** One of the prefixes in `list` starts `id`. */
  predicate InList(id: string, list: seq<string>)
  {
    exists i | 0 <= i < |list| :: list[i] <= id
  }

  /** BelongsTo: whether `id` starts with one of the prefixes in `list`. */
  method BelongsTo(id: string, list: seq<string>) returns (r: bool)
    ensures r <==> exists i | 0 <= i < |list| :: list[i] <= id
  {
    var i := 0;
    while i < |list|
      invariant 0 <= i <= |list|
      invariant forall k | 0 <= k < i :: !(list[k] <= id)
    {
      if list[i] <= id {
        return true;
      }
      i := i + 1;
    }
    return false;
  }

  /** The DS18x20 family is exactly the ids starting with "10-" or "28-". */
  lemma Ds1820Prefixes(id: string)
    ensures InList(id, Ds1820) <==> "10-" <= id || "28-" <= id
  {
    if "10-" <= id {
      assert Ds1820[0] <= id;
    }
    if "28-" <= id {
      assert Ds1820[1] <= id;
    }
  }

  /** The w1_slave file of a device, as snprintf leaves it in the 1024-byte buffer. */
  function DevicePath(id: string): (r: string)
    ensures |r| < PathSize
    ensures |"/sys/bus/w1/devices/" + id + "/w1_slave"| < PathSize ==> r == "/sys/bus/w1/devices/" + id + "/w1_slave"
  {
    Cap("/sys/bus/w1/devices/" + id + "/w1_slave", PathSize)
  }

  /**
   * Where one fgets that reads at most n characters from `at` stops: after
   * the first newline, after n characters, or at the end of the text.
   */
  function LineEnd(s: string, at: nat, n: nat): (r: nat)
    requires at <= |s|
    ensures at <= r <= |s| && r <= at + n
    ensures at < |s| && 0 < n ==> at < r
    ensures forall k | at <= k < r - 1 :: s[k] != '\n'
    ensures r < |s| && r < at + n && at < r ==> s[r - 1] == '\n'
    ensures r == at ==> at == |s| || n == 0
    decreases n
  {
    if n == 0 || at == |s| then at
    else if s[at] == '\n' then at + 1
    else LineEnd(s, at + 1, n - 1)
  }

  /** fgets stops just after a newline it reaches within its n characters. */
  lemma {:induction false} LineEndAtNewline(s: string, at: nat, n: nat, j: nat)
    requires at <= j < |s| && j - at < n && s[j] == '\n'
    requires forall k | at <= k < j :: s[k] != '\n'
    ensures LineEnd(s, at, n) == j + 1
    decreases n
  {
    if at < j {
      LineEndAtNewline(s, at + 1, n - 1, j);
    }
  }

  /** The C string the line buffer holds after the first fgets of a text that is not empty. */
  function FirstLine(content: string): string
    requires content != []
  {
    CStr(content[..LineEnd(content, 0, LineSize - 1)])
  }

  /**
   * The C string the line buffer holds after the second fgets: the next line,
   * or the first one still when the text ends after it.
   */
  function SecondLine(content: string): string
    requires content != []
  {
    var e := LineEnd(content, 0, LineSize - 1);
    if e == |content| then FirstLine(content)
    else CStr(content[e..LineEnd(content, e, LineSize - 1)])
  }

  /** Where the reading cut at the first character below ' ' ends, when " t=" occurs at p. */
  lemma TagSurvivesCut(line: string, p: nat)
    requires OccursAt(line, " t=", p)
    ensures p + 3 <= ControlEnd(line, p)
  {
    assert line[p..p + 3] == " t=";
    assert line[p] == ' ' && line[p + 1] == 't' && line[p + 2] == '=';
  }

  /**
   * What the second line gives: the text after its first " t=" up to the
   * first character below ' ', or None when it holds no " t=".
   */
  function Reading(line: string): (r: Option<string>)
    ensures r.Some? <==> Contains(line, " t=")
  {
    match IndexOf(line, " t=", 0)
    case None => None
    case Some(p) =>
      TagSurvivesCut(line, p);
      Some(line[p + 3..ControlEnd(line, p)])
  }

  /**
   * The value ReadDevice stores for a device whose w1_slave file holds
   * `content`: None when nothing is stored.
   */
  function Sample(content: string, id: string): (r: Option<string>)
  {
    if content == [] || !Contains(FirstLine(content), " YES") || !InList(id, Ds1820) then None
    else Reading(SecondLine(content))
  }

  /**
   * A value is stored exactly when the first line says " YES", the device
   * is a DS18x20 and the second line holds " t=".
   */
  lemma SampleWhen(content: string, id: string)
    ensures Sample(content, id).Some? <==>
              && content != []
              && Contains(FirstLine(content), " YES")
              && ("10-" <= id || "28-" <= id)
              && Contains(SecondLine(content), " t=")
  {
    Ds1820Prefixes(id);
  }

  /**
   * The reading is the text after the first " t=" of the line, up to the
   * first character below ' ' or the end of the line.
   */
  lemma ReadingValue(line: string)
    requires Reading(line).Some?
    ensures var v := Reading(line).value;
            exists p ::
              && 0 <= p && OccursAt(line, " t=", p)
              && (forall j | 0 <= j < p :: !OccursAt(line, " t=", j))
              && p + 3 + |v| <= |line| && line[p + 3..p + 3 + |v|] == v
              && (forall k | 0 <= k < |v| :: v[k] >= ' ')
              && (p + 3 + |v| < |line| ==> line[p + 3 + |v|] < ' ')
  {
    var p := IndexOf(line, " t=", 0).value;
    var e := ControlEnd(line, p);
    TagSurvivesCut(line, p);
    var v := line[p + 3..e];
    assert Reading(line) == Some(v);
    forall k | 0 <= k < |v| ensures v[k] >= ' ' {
      assert v[k] == line[p + 3 + k];
    }
  }

  /** A pattern does not occur where one of its characters differs from the text. */
  lemma NotAt(s: string, pat: string, j: nat, m: nat)
    requires m < |pat| && (j + |pat| <= |s| ==> s[j + m] != pat[m])
    ensures !OccursAt(s, pat, j)
  {
    if j + |pat| <= |s| {
      assert s[j..j + |pat|][m] == s[j + m];
    }
  }

  /** A line of text that fits the line buffer: one newline, at its end, and no NUL. */
  predicate ShortLine(l: string)
  {
    && 0 < |l| < LineSize && l[|l| - 1] == '\n'
    && '\n' !in l[..|l| - 1]
    && '\0' !in l
  }

  /** fgets stops at the end of a short line that starts at `at`, whatever follows it. */
  lemma ShortLineEnd(s: string, at: nat, l: string)
    requires ShortLine(l) && at + |l| <= |s| && s[at..at + |l|] == l
    ensures LineEnd(s, at, LineSize - 1) == at + |l|
  {
    forall k | at <= k < at + |l| - 1
      ensures s[k] != '\n'
    {
      assert s[k] == l[k - at] == l[..|l| - 1][k - at];
    }
    assert s[at + |l| - 1] == l[|l| - 1];
    LineEndAtNewline(s, at, LineSize - 1, at + |l| - 1);
  }

  /** A text of two lines that fit the buffer reads back as exactly those two lines. */
  lemma TwoLines(first: string, second: string)
    requires ShortLine(first) && ShortLine(second)
    ensures FirstLine(first + second) == first
    ensures SecondLine(first + second) == second
  {
    var content := first + second;
    var n := |first|;
    assert content[0..n] == first && content[..n] == first;
    ShortLineEnd(content, 0, first);
    assert content[n..n + |second|] == second && n + |second| == |content|;
    ShortLineEnd(content, n, second);
    CStrWhole(first);
    CStrWhole(second);
  }

  /** Where the searches of ReadDevice stop in those two lines. */
  lemma ReadingMarks()
    ensures Contains("72 01 YES\n", " YES")
    ensures IndexOf("72 01 t=23125\n", " t=", 0) == Some(5)
    ensures ControlEnd("72 01 t=23125\n", 5) == 13
    ensures "72 01 t=23125\n"[8..13] == "23125"
  {
    var first, line := "72 01 YES\n", "72 01 t=23125\n";
    assert first[5..9] == " YES";
    assert OccursAt(first, " YES", 5);
    NotAt(line, " t=", 0, 0);
    NotAt(line, " t=", 1, 0);
    NotAt(line, " t=", 2, 1);
    NotAt(line, " t=", 3, 0);
    NotAt(line, " t=", 4, 0);
    assert line[5..8] == " t=";
    assert IndexOf(line, " t=", 4) == Some(5);
  }

  /** Both lines of the sample texts fit the buffer. */
  lemma SampleLinesShort()
    ensures ShortLine("72 01 YES\n") && ShortLine("72 01 NO\n") && ShortLine("72 01 t=23125\n")
  {
  }

  /** A thermometer's usual text: the CRC check passed and the reading is 23.125 degrees. */
  lemma SampleOfReading(first: string, second: string, id: string)
    requires first == "72 01 YES\n" && second == "72 01 t=23125\n" && id == "28-0000055a"
    ensures Sample(first + second, id) == Some("23125")
  {
    SampleLinesShort();
    TwoLines(first, second);
    ReadingMarks();
    Ds1820Prefixes(id);
    assert "28-" <= id;
  }

  /** A failed CRC check stores nothing, whatever the second line says. */
  lemma SampleOfBadCrc(first: string, second: string, id: string)
    requires first == "72 01 NO\n" && second == "72 01 t=23125\n"
    ensures Sample(first + second, id) == None
  {
    SampleLinesShort();
    TwoLines(first, second);
    NotAt(first, " YES", 0, 0);
    NotAt(first, " YES", 1, 0);
    NotAt(first, " YES", 2, 1);
    NotAt(first, " YES", 3, 0);
    NotAt(first, " YES", 4, 0);
    NotAt(first, " YES", 5, 1);
    assert IndexOf(first, " YES", 4) == None;
  }

  /**
   * The loop of ReadDevice that ends the reading at the first character
   * below ' ', given " t=" at p; the C code writes a NUL there, the model
   * takes the text before it.
   */
  method Cut(line: string, p: nat) returns (value: string)
    requires OccursAt(line, " t=", p)
    ensures value == line[p + 3..ControlEnd(line, p)]
    ensures forall k | 0 <= k < |value| :: value[k] >= ' '
  {
    TagSurvivesCut(line, p);
    var eol := p;
    while eol < |line|
      invariant p <= eol <= ControlEnd(line, p)
      decreases |line| - eol
    {
      if line[eol] < ' ' {
        break;
      }
      eol := eol + 1;
    }
    value := line[p + 3..eol];
  }

  /** The sample of a device: what its w1_slave file gives, or None when the file does not open. */
  function SampleAt(files: map<string, string>, id: string): Option<string>
  {
    if DevicePath(id) in files then Sample(files[DevicePath(id)], id) else None
  }

  /** The file reading of ReadDevice: the temperature text of the device's w1_slave file, if any. */
  method ReadSample(id: string, files: map<string, string>) returns (sample: Option<string>)
    ensures sample == SampleAt(files, id)
  {
    var name := DevicePath(id);
    if name in files {
      var content := files[name];
      if content != [] {
        var e := LineEnd(content, 0, LineSize - 1);
        var line := CStr(content[..e]);
        if Contains(line, " YES") {
          if e < |content| {
            line := CStr(content[e..LineEnd(content, e, LineSize - 1)]);
          }
          assert line == SecondLine(content);
          var family := BelongsTo(id, Ds1820);
          if family {
            assert InList(id, Ds1820);
            var p := IndexOf(line, " t=", 0);
            if p.Some? {
              var value := Cut(line, p.value);
              assert Reading(line) == Some(value);
              return Some(value);
            }
            assert Reading(line).None?;
            return None;
          }
          assert !InList(id, Ds1820);
          return None;
        }
        return None;
      }
      return None;
    }
    return None;
  }
}
