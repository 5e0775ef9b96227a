/**
 * Line tokenisation of the configuration loader (LineSplit and the line
 * classification of DecodeLine/LoadConfig in housesensor_db.c).
 *
 * A configuration buffer is what fgets left in the 1024-byte line buffer: the
 * line, usually its '\n', a NUL, and whatever an earlier longer line left
 * behind. Tokens are separated by runs of spaces; the first character below
 * ' ' ends the line.
 */
module Config {
  import opened Text

  /** At most this many tokens fit in DecodeLine's token array. */
  const MaxTokens := 16

  datatype Split = Tokens(tokens: seq<string>) | TooManyTokens | Overrun

  /** The end of the word that starts at `from`: the next space, or the end of s. */
  function WordEnd(s: string, from: nat): (r: nat)
    requires from <= |s|
    ensures from <= r <= |s|
    ensures forall k | from <= k < r :: s[k] != ' '
    ensures r < |s| ==> s[r] == ' '
    decreases |s| - from
  {
    if from == |s| || s[from] == ' ' then from else WordEnd(s, from + 1)
  }

  /** The maximal runs of non-space characters of s, in order. */
  function Words(s: string): (r: seq<string>)
    ensures forall k | 0 <= k < |r| :: r[k] != [] && ' ' !in r[k]
    decreases |s|
  {
    if s == [] then []
    else if s[0] == ' ' then Words(s[1..])
    else
      var n := WordEnd(s, 0);
      assert forall c | c in s[..n] :: c != ' ';
      [s[..n]] + Words(s[n..])
  }

  /** A word of s that ends at a space or at the end of s comes off the front of Words. */
  lemma WordsFront(t: string, n: nat)
    requires 0 < n <= |t|
    requires forall k | 0 <= k < n :: t[k] != ' '
    requires n == |t| || t[n] == ' '
    ensures Words(t) == [t[..n]] + Words(t[n..])
  {
    var e := WordEnd(t, 0);
    assert e == n;
  }

  /** A space at index i of line, right where the words still to be split start, is passed over. */
  lemma WordsAtSpace(line: string, i: nat)
    requires i < |line| && line[i] == ' '
    ensures Words(line[i..]) == Words(line[i + 1..])
  {
    assert line[i..] == [' '] + line[i + 1..];
  }

  /** A space at index i of line ends the word that starts at start. */
  lemma WordsAfterWord(line: string, start: nat, i: nat)
    requires start < i < |line| && line[i] == ' '
    requires forall k | start <= k < i :: line[k] != ' '
    ensures Words(line[start..]) == [line[start..i]] + Words(line[i + 1..])
  {
    var t := line[start..];
    WordsFront(t, i - start);
    assert t[..i - start] == line[start..i];
    assert t[i - start..] == [' '] + line[i + 1..];
  }

  /** The last word, when no space follows start. */
  lemma WordsAtEnd(line: string, start: nat)
    requires start < |line|
    requires forall k | start <= k < |line| :: line[k] != ' '
    ensures Words(line[start..]) == [line[start..]]
  {
    var t := line[start..];
    WordsFront(t, |t|);
    assert t[..|t|] == t;
    assert t[|t|..] == [];
  }

  /** The part of the buffer that LineSplit looks at: everything before its first control character. */
  function LinePart(buffer: string): string
  {
    buffer[..ControlEnd(buffer, 0)]
  }

  /**
   * LineSplit, as the loader means it: the tokens are the words of the line
   * before its first control character, and more than MaxTokens of them is a
   * fatal configuration error.
   */
  method LineSplit(buffer: string) returns (r: Split)
    ensures r == if |Words(LinePart(buffer))| > MaxTokens then TooManyTokens
                 else Tokens(Words(LinePart(buffer)))
  {
    ghost var line := LinePart(buffer);
    var tokens: seq<string> := [];
    var i, start := 0, 0;
    while i < |buffer| && buffer[i] >= ' '
      invariant start <= i <= |line|
      invariant forall k | start <= k < i :: line[k] != ' '
      invariant Words(line) == tokens + Words(line[start..])
      invariant |tokens| <= MaxTokens
    {
      assert buffer[i] == line[i];
      if buffer[i] == ' ' {
        if start < i {
          WordsAfterWord(line, start, i);
          if |tokens| >= MaxTokens {
            return TooManyTokens;
          }
          assert buffer[start..i] == line[start..i];
          tokens := tokens + [buffer[start..i]];
        } else {
          WordsAtSpace(line, i);
        }
        start := i + 1;
      }
      i := i + 1;
    }
    assert i == |line|;
    if start < i {
      WordsAtEnd(line, start);
      if |tokens| >= MaxTokens {
        return TooManyTokens;
      }
      assert buffer[start..i] == line[start..];
      tokens := tokens + [buffer[start..i]];
    } else {
      assert line[start..] == [];
    }
    return Tokens(tokens);
  }

  /** The first index after `from` whose character is not a space (the do/while of LineSplit), or |s|. */
  function SpaceRunEnd(s: string, from: nat): (r: nat)
    requires from <= |s|
    ensures from <= r <= |s|
    ensures r < |s| ==> s[r] != ' '
    decreases |s| - from
  {
    if from < |s| && s[from] == ' ' then SpaceRunEnd(s, from + 1) else from
  }

  /**
   * LineSplit as written in C, from loop state (i, start, tokens so far).
   * After a run of spaces the loop's own ++i moves past the first non-space
   * character without testing it, so a control character there does not end
   * the line. Each token is the C string stored from its start. A 17th token
   * is stored in token[16], past the end of the 16-entry array; reading past
   * the end of the buffer is reported as Overrun.
   */
  function SplitAsWritten(buffer: string, i: nat, start: nat, tokens: seq<string>): (r: Split)
    requires start <= i
    decreases |buffer| - i
  {
    if i >= |buffer| then Overrun
    else if buffer[i] < ' ' then Tokens(tokens + [CStr(buffer[start..i])])
    else if buffer[i] == ' ' then
      if |tokens| >= MaxTokens then TooManyTokens
      else
        var j := SpaceRunEnd(buffer, i + 1);
        if j >= |buffer| then Overrun
        else SplitAsWritten(buffer, j + 1, j, tokens + [CStr(buffer[start..i])])
    else SplitAsWritten(buffer, i + 1, start, tokens)
  }

  function LineSplitAsWritten(buffer: string): Split
  {
    SplitAsWritten(buffer, 0, 0, [])
  }

  /** Ordinary characters only move the C loop forward. */
  lemma {:induction false} SkipWord(buffer: string, i: nat, j: nat, start: nat, tokens: seq<string>)
    requires start <= i <= j < |buffer|
    requires forall k | i <= k < j :: buffer[k] > ' '
    ensures SplitAsWritten(buffer, i, start, tokens) == SplitAsWritten(buffer, j, start, tokens)
    decreases j - i
  {
    if i < j {
      SkipWord(buffer, i + 1, j, start, tokens);
    }
  }

  /**
   * A space just before the line's '\n' makes the C loop step over the '\n':
   * the line "OPTION a \n" splits into three tokens, the last one "\n", so an
   * option line with no value is accepted with the value "\n".
   */
  lemma TrailingSpaceAsWritten()
    ensures LineSplitAsWritten("OPTION a \n\0") == Tokens(["OPTION", "a", "\n"])
    ensures Words(LinePart("OPTION a \n\0")) == ["OPTION", "a"]
  {
    TrailingSpaceSplit("OPTION", "a", "OPTION a \n\0");
    TrailingSpaceLine();
    TrailingSpaceWords("OPTION a ");
  }

  /** A single space ends a token, and the loop steps over the character after it unread. */
  lemma SplitAtSpace(b: string, i: nat, start: nat, tokens: seq<string>)
    requires start <= i && i + 1 < |b| && b[i] == ' ' && b[i + 1] != ' ' && |tokens| < MaxTokens
    ensures SplitAsWritten(b, i, start, tokens) == SplitAsWritten(b, i + 2, i + 1, tokens + [CStr(b[start..i])])
  {
    assert SpaceRunEnd(b, i + 1) == i + 1;
  }

  /** A control character ends the last token and the line. */
  lemma SplitAtControl(b: string, i: nat, start: nat, tokens: seq<string>)
    requires start <= i < |b| && b[i] < ' '
    ensures SplitAsWritten(b, i, start, tokens) == Tokens(tokens + [CStr(b[start..i])])
  {
  }

  /** How the loop as written splits two words with a space before the '\n': the '\n' becomes a third token. */
  lemma TrailingSpaceSplit(w: string, a: string, b: string)
    requires |w| > 0 && |a| > 0
    requires forall k | 0 <= k < |w| :: w[k] > ' '
    requires forall k | 0 <= k < |a| :: a[k] > ' '
    requires b == w + " " + a + " \n\0"
    ensures LineSplitAsWritten(b) == Tokens([w, a, "\n"])
  {
    var n := |w| + 1 + |a|;
    TwoWordsLine(w, a, b);
    var t1 := [CStr(b[0..|w|])];
    var t2 := t1 + [CStr(b[|w| + 1..n])];
    assert b[|w| + 1] > ' ' && [] + t1 == t1;
    SkipWord(b, 0, |w|, 0, []);
    SplitAtSpace(b, |w|, 0, []);
    assert LineSplitAsWritten(b) == SplitAsWritten(b, |w| + 2, |w| + 1, t1);
    SkipWord(b, |w| + 2, n, |w| + 1, t1);
    SplitAtSpace(b, n, |w| + 1, t1);
    assert LineSplitAsWritten(b) == SplitAsWritten(b, n + 2, n + 1, t2);
    SplitAtControl(b, n + 2, n + 1, t2);
    CStrWhole(w);
    CStrWhole(a);
    CStrWhole("\n");
  }

  /** Where the characters of two words and a trailing " \n\0" sit in the buffer. */
  lemma TwoWordsLine(w: string, a: string, b: string)
    requires |w| > 0 && |a| > 0
    requires forall k | 0 <= k < |w| :: w[k] > ' '
    requires forall k | 0 <= k < |a| :: a[k] > ' '
    requires b == w + " " + a + " \n\0"
    ensures var n := |w| + 1 + |a|;
            && |b| == n + 3
            && b[..|w|] == w && b[|w| + 1..n] == a && b[n + 1..n + 2] == "\n"
            && b[|w|] == ' ' && b[n] == ' ' && b[n + 1] == '\n' && b[n + 2] == '\0'
            && (forall k | 0 <= k < |w| :: b[k] > ' ')
            && (forall k | |w| + 1 <= k < n :: b[k] > ' ')
  {
    var n := |w| + 1 + |a|;
    assert forall k | 0 <= k < |w| :: b[k] == w[k];
    assert forall k | |w| + 1 <= k < n :: b[k] == a[k - |w| - 1];
  }

  /** The part of the buffer before its first control character. */
  lemma TrailingSpaceLine()
    ensures LinePart("OPTION a \n\0") == "OPTION a "
  {
  }

  /** The words of the same line, before its control characters. */
  lemma TrailingSpaceWords(line: string)
    requires line == "OPTION a "
    ensures Words(line) == ["OPTION", "a"]
  {
    assert |line| == 9 && line[6] == ' ' && line[7] == 'a' && line[8] == ' ';
    assert line[0] == 'O' && line[1] == 'P' && line[2] == 'T' && line[3] == 'I' && line[4] == 'O' && line[5] == 'N';
    WordsFront(line, 6);
    assert line[..6] == "OPTION";
    WordsAtSpace(line, 6);
    assert line[7..][0] == 'a' && line[7..][1] == ' ';
    WordsFront(line[7..], 1);
    assert line[7..][..1] == "a";
    assert line[7..][1..] == " ";
    assert Words(" ") == Words("");
  }

  /** A buffer holding seventeen one-letter tokens separated by single spaces, then '\n'. */
  function SeventeenTokens(): (b: string)
    ensures |b| == 34
  {
    seq(34, i => if i == 33 then '\n' else if i % 2 == 1 then ' ' else 'a')
  }

  lemma {:induction false} SeventeenFrom(k: nat, tokens: seq<string>)
    requires k <= 16 && |tokens| == k
    ensures var r := SplitAsWritten(SeventeenTokens(), 2 * k + 1, 2 * k, tokens);
            r.Tokens? && |r.tokens| == 17
    decreases 16 - k
  {
    var b := SeventeenTokens();
    if k < 16 {
      assert b[2 * k + 1] == ' ';
      assert b[2 * k + 2] == 'a';
      assert SpaceRunEnd(b, 2 * k + 2) == 2 * k + 2;
      SeventeenFrom(k + 1, tokens + [CStr(b[2 * k..2 * k + 1])]);
    } else {
      assert b[33] == '\n';
    }
  }

  /**
   * The overflow check runs only at a space, before the token is stored, so a
   * line of 17 tokens passes it 16 times and stores its last token at
   * token[16], one past the array.
   */
  lemma SeventeenTokensAsWritten()
    ensures var r := LineSplitAsWritten(SeventeenTokens());
            r.Tokens? && |r.tokens| == 17
  {
    assert SeventeenTokens()[0] == 'a';
    SeventeenFrom(0, []);
  }
}

/** How LoadConfig and DecodeLine classify one configuration buffer. */
module Directives {
  import opened Text
  import opened Config

  datatype Directive =
    | Ignored                                   // empty, comment, or starts with a space or control character
    | ShortOption                               // OPTION with fewer than 3 tokens: logged and skipped
    | ShortSensor                               // sensor line with fewer than 4 tokens: logged and skipped
    | OptionLine(name: string, value: string)
    | SensorLine(driver: string, device: string, location: string, name: string, unit: string)
    | Overlong                                  // more than 16 tokens: fatal

  /** The first character decides whether DecodeLine sees the buffer at all. */
  predicate Skipped(buffer: string)
  {
    |buffer| == 0 || buffer[0] == '#' || buffer[0] <= ' '
  }

  /** What a line becomes, from its tokens (the corrected LineSplit's words). */
  function Classify(w: seq<string>): Directive
  {
    if |w| > MaxTokens then Overlong
    else if |w| < 1 then Ignored
    else if w[0] == "OPTION" then (if |w| < 3 then ShortOption else OptionLine(w[1], w[2]))
    else if |w| < 4 then ShortSensor
    else SensorLine(w[0], w[1], w[2], w[3], if |w| >= 5 then w[4] else "")
  }

  function Decode(buffer: string): Directive
  {
    if Skipped(buffer) then Ignored else Classify(Words(LinePart(buffer)))
  }
}
