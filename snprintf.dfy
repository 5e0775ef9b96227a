/**
 * The renderers of housesensor_db.c build their JSON in a fixed static
 * buffer: each piece is written with snprintf at buffer+length, with room
 * size-length, and length then grows by strlen of what landed. A piece that
 * does not fit is cut, and every later piece is dropped entirely.
 */
module Snprintf {

  /** What a buffer of `size` bytes holds of the text s: at most size-1 characters (one byte is the NUL). */
  function Cap(s: string, size: nat): (r: string)
    requires 1 <= size
    ensures r <= s
    ensures |r| == if |s| < size then |s| else size - 1
  {
    if |s| < size then s else s[..size - 1]
  }

  /** snprintf(buffer+length, size-length, "%s", piece); length += strlen(buffer+length). */
  function Put(buf: string, piece: string, size: nat): (r: string)
    requires 1 <= size && |buf| < size
  {
    var room := size - 1 - |buf|;
    buf + (if |piece| <= room then piece else piece[..room])
  }

  /**
   * Writing piece by piece with snprintf leaves in the buffer exactly the
   * capped concatenation of all the pieces: the stepwise renderer equals the
   * whole document truncated to size-1 characters.
   */
  lemma PutCap(full: string, piece: string, size: nat)
    requires 1 <= size
    ensures |Cap(full, size)| < size
    ensures Put(Cap(full, size), piece, size) == Cap(full + piece, size)
  {
    var buf := Cap(full, size);
    var room := size - 1 - |buf|;
    if |full| < size {
      if |piece| <= room {
        assert buf + piece == full + piece;
      } else {
        assert buf + piece[..room] == (full + piece)[..size - 1];
      }
    } else {
      assert room == 0;
      assert piece[..0] == [];
      assert (full + piece)[..size - 1] == full[..size - 1];
    }
  }

  /**
   * snprintf(buffer+length, size-length, ...) of one piece, then
   * length += strlen(buffer+length): the buffer holds the capped
   * concatenation of everything written so far.
   */
  method Append(buf: string, ghost full: string, piece: string, size: nat) returns (next: string)
    requires 1 <= size && buf == Cap(full, size)
    ensures next == Cap(full + piece, size)
  {
    PutCap(full, piece, size);
    var room := size - 1 - |buf|;
    next := buf + (if |piece| <= room then piece else piece[..room]);
  }

  /** The separator written before element k of a JSON list: nothing before the first, a comma before the others. */
  function Sep(k: nat): string
  {
    if k == 0 then "" else ","
  }

  /** Regrouping a concatenation: what was written piece by piece is the same text as the pieces joined first. */
  lemma Regroup3<T>(a: seq<T>, b: seq<T>, c: seq<T>)
    ensures a + b + c == a + (b + c)
  {
  }

  lemma Regroup(a: string, b: string, c: string, d: string)
    ensures a + b + c + d == a + (b + c + d)
  {
  }
}
