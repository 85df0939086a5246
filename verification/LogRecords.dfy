/**
 desktop-app/internal/ingest/tailer.go: what the records of a log file are, and the scan
 for the next newline.

 A file is the sequence of its bytes. UTF-16LE newlines count only on even absolute
 offsets. A record runs from the previous boundary through its newline.
 */
module LogRecords {
  import opened Wrappers

  type Byte = x: int | 0 <= x < 256

  datatype Encoding = Utf8 | Utf16Le {
    function Width(): nat { if this == Utf8 then 1 else 2 }
  }

  const LF: Byte := 10
  const CR: Byte := 13

  /** A newline starts at the absolute position `k` of the file. */
  predicate NewlineAt(file: seq<Byte>, k: nat, enc: Encoding) {
    && k + enc.Width() <= |file|
    && file[k] == LF
    && (enc == Utf16Le ==> k % 2 == 0 && file[k + 1] == 0)
  }

  /** The end of the record that starts at `from`: just past the first newline. */
  ghost function NextEnd(file: seq<Byte>, from: nat, enc: Encoding): (r: Option<nat>)
    ensures r.Some? ==> from + enc.Width() <= r.value <= |file| && NewlineAt(file, r.value - enc.Width(), enc)
    ensures forall k :: from <= k && (r.Some? ==> k < r.value - enc.Width()) ==> !NewlineAt(file, k, enc)
    decreases |file| - from
  {
    if from >= |file| then None
    else if NewlineAt(file, from, enc) then Some(from + enc.Width())
    else NextEnd(file, from + 1, enc)
  }

  /** The newline split of a file from an offset: the ends of its complete records. */
  ghost function Ends(file: seq<Byte>, from: nat, enc: Encoding): seq<nat>
    decreases |file| - from
  {
    var e := NextEnd(file, from, enc);
    if e.None? then [] else [e.value] + Ends(file, e.value, enc)
  }

  /** Where the record with number `i` starts. */
  ghost function StartOf(from: nat, ends: seq<nat>, i: nat): nat
    requires i <= |ends|
  {
    if i == 0 then from else ends[i - 1]
  }

  /** Records lie end to end, inside the file. */
  lemma {:induction false} EndsOrdered(file: seq<Byte>, from: nat, enc: Encoding, i: nat)
    requires i < |Ends(file, from, enc)|
    ensures var ends := Ends(file, from, enc);
      StartOf(from, ends, i) < ends[i] <= |file| && NextEnd(file, StartOf(from, ends, i), enc) == Some(ends[i])
    decreases i
  {
    if i > 0 {
      EndsOrdered(file, NextEnd(file, from, enc).value, enc, i - 1);
    }
  }

  /** Splitting again from any record boundary gives the rest of the same split. */
  lemma {:induction false} EndsFrom(file: seq<Byte>, from: nat, enc: Encoding, m: nat)
    requires m <= |Ends(file, from, enc)|
    ensures Ends(file, StartOf(from, Ends(file, from, enc), m), enc) == Ends(file, from, enc)[m..]
    decreases m
  {
    if m > 0 {
      EndsFrom(file, NextEnd(file, from, enc).value, enc, m - 1);
    }
  }

  /** The record after the first `m` is the next one found from their end. */
  lemma NextOfRest(file: seq<Byte>, from: nat, enc: Encoding, m: nat)
    requires m <= |Ends(file, from, enc)|
    ensures NextEnd(file, StartOf(from, Ends(file, from, enc), m), enc)
         == if m < |Ends(file, from, enc)| then Some(Ends(file, from, enc)[m]) else None
  {
    EndsFrom(file, from, enc, m);
  }

  /** Appending bytes keeps the records that were complete. */
  lemma {:induction false} EndsGrow(file: seq<Byte>, more: seq<Byte>, from: nat, enc: Encoding)
    ensures Ends(file, from, enc) <= Ends(file + more, from, enc)
    decreases |file| - from
  {
    var e := NextEnd(file, from, enc);
    if e.Some? {
      NextEndGrows(file, more, from, enc);
      EndsGrow(file, more, e.value, enc);
    }
  }

  lemma NextEndGrows(file: seq<Byte>, more: seq<Byte>, from: nat, enc: Encoding)
    requires NextEnd(file, from, enc).Some?
    ensures NextEnd(file + more, from, enc) == NextEnd(file, from, enc)
  {
    var k := NextEnd(file, from, enc).value - enc.Width();
    assert NewlineAt(file + more, k, enc);
    var r := NextEnd(file + more, from, enc);
    if r.value < k + enc.Width() {
      assert NewlineAt(file, r.value - enc.Width(), enc);
      assert false;
    }
  }

  /** A newline inside the chunk `file[offset..offset + n]`, at chunk position `k`. */
  predicate NewlineIn(b: seq<Byte>, k: nat, enc: Encoding, offset: nat) {
    && k + enc.Width() <= |b|
    && b[k] == LF
    && (enc == Utf16Le ==> (offset + k) % 2 == 0 && b[k + 1] == 0)
  }

  /** newlineEnd: the first newline of a chunk at or after `start`, or -1. */
  method NewlineEnd(b: seq<Byte>, start: nat, enc: Encoding, offset: nat) returns (end: int)
    ensures end < 0 ==> end == -1 && forall k :: start <= k ==> !NewlineIn(b, k, enc, offset)
    ensures end >= 0 ==> start + enc.Width() <= end <= |b| && NewlineIn(b, end - enc.Width(), enc, offset)
    ensures end >= 0 ==> forall k :: start <= k < end - enc.Width() ==> !NewlineIn(b, k, enc, offset)
  {
    if enc == Utf16Le {
      var i := start;
      if (offset + i) % 2 != 0 {
        i := i + 1;
      }
      while i + 1 < |b|
        invariant start <= i && (offset + i) % 2 == 0
        invariant forall k :: start <= k < i ==> !NewlineIn(b, k, enc, offset)
      {
        if b[i] == LF && b[i + 1] == 0 {
          return i + 2;
        }
        i := i + 2;
      }
      return -1;
    }
    var i := start;
    while i < |b|
      invariant start <= i
      invariant forall k :: start <= k < i ==> !NewlineIn(b, k, enc, offset)
    {
      if b[i] == LF {
        return i + 1;
      }
      i := i + 1;
    }
    end := -1;
  }

  /** Reading a chunk finds the file's own next record end, if that lies inside the chunk. */
  lemma ChunkFindsNextEnd(file: seq<Byte>, offset: nat, n: nat, start: nat, enc: Encoding, end: int)
    requires offset + n <= |file| && start <= n
    requires var b := file[offset..offset + n];
      if end < 0 then forall k :: start <= k ==> !NewlineIn(b, k, enc, offset)
      else start + enc.Width() <= end <= n && NewlineIn(b, end - enc.Width(), enc, offset)
           && forall k :: start <= k < end - enc.Width() ==> !NewlineIn(b, k, enc, offset)
    ensures var next := NextEnd(file, offset + start, enc);
      if end < 0 then next.None? || next.value > offset + n else next == Some(offset + end)
  {
    var b := file[offset..offset + n];
    var next := NextEnd(file, offset + start, enc);
    if end >= 0 {
      assert NewlineAt(file, offset + end - enc.Width(), enc);
    }
    if next.Some? && next.value <= offset + n {
      assert NewlineIn(b, next.value - enc.Width() - offset, enc, offset);
    }
  }

  /** The text of the record `file[start..end]`: without its newline and a carriage return before it. */
  function Line(bytes: seq<Byte>, enc: Encoding): seq<Byte> {
    var n := if |bytes| < enc.Width() then 0 else |bytes| - enc.Width();
    if enc == Utf16Le && n >= 2 && bytes[n - 2] == CR && bytes[n - 1] == 0 then bytes[..n - 2]
    else if enc == Utf8 && n > 0 && bytes[n - 1] == CR then bytes[..n - 1]
    else bytes[..n]
  }

  /** The code units of the encodings. */
  function Unit(b: Byte, enc: Encoding): seq<Byte> { if enc == Utf8 then [b] else [b, 0] }

  predicate EndsIn(t: seq<Byte>, unit: seq<Byte>) { |unit| <= |t| && t[|t| - |unit|..] == unit }

  /** Every complete record ends in a newline. */
  lemma RecordEndsInNewline(file: seq<Byte>, from: nat, enc: Encoding)
    requires NextEnd(file, from, enc).Some?
    ensures var end := NextEnd(file, from, enc).value;
      file[from..end] == file[from..end - enc.Width()] + Unit(LF, enc)
  {
    var end := NextEnd(file, from, enc).value;
    assert NewlineAt(file, end - enc.Width(), enc);
    assert file[end - enc.Width()..end] == Unit(LF, enc);
  }

  /** What is before the newline is a text, or a text and a carriage return. */
  predicate IsTextOf(bytes: seq<Byte>, enc: Encoding, t: seq<Byte>) {
    || (bytes == t + Unit(LF, enc) && !EndsIn(t, Unit(CR, enc)))
    || bytes == t + Unit(CR, enc) + Unit(LF, enc)
  }

  lemma TextOf(body: seq<Byte>, enc: Encoding) returns (t: seq<Byte>)
    ensures IsTextOf(body + Unit(LF, enc), enc, t)
  {
    t := body;
    if EndsIn(body, Unit(CR, enc)) {
      t := body[..|body| - enc.Width()];
      assert body == t + Unit(CR, enc);
    }
  }

  /** A record is its text, its newline, and perhaps a carriage return between them. */
  lemma LineIsText(t: seq<Byte>, enc: Encoding)
    ensures !EndsIn(t, Unit(CR, enc)) ==> Line(t + Unit(LF, enc), enc) == t
    ensures Line(t + Unit(CR, enc) + Unit(LF, enc), enc) == t
  {
    var plain, returned := t + Unit(LF, enc), t + Unit(CR, enc) + Unit(LF, enc);
    assert plain[..|t|] == t && returned[..|t|] == t;
    assert returned[..|t| + enc.Width()] == t + Unit(CR, enc);
  }
}
