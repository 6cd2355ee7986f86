/** The write-ahead-log codec of internal/consensus/filesystem/interpreter.go: a length-prefixed,
    little-endian frame for each log entry, read back as a stream.

    Go's fixed-width arithmetic is written out with `%`, because it decides which entries survive: the
    header is a uint32, and the id length is a uint16 whose sums with 18 and 22 stay in uint16. */
module Codec {

  newtype byte = b: int | 0 <= b < 0x100

  const TWO_16: int := 0x1_0000
  const TWO_32: int := 0x1_0000_0000
  const TWO_63: int := 0x8000_0000_0000_0000
  const TWO_64: int := 0x1_0000_0000_0000_0000

  datatype LogEntry = LogEntry(index: int, term: int, schedulerId: seq<byte>, payload: seq<byte>)

  // ---------------------------------------------------------------- little-endian numbers

  /** The low `width` bytes of `n`, least significant first (binary.LittleEndian.PutUintN). */
  function ToLittleEndian(n: nat, width: nat): (s: seq<byte>)
    ensures |s| == width
  {
    if width == 0 then [] else [(n % 0x100) as byte] + ToLittleEndian(n / 0x100, width - 1)
  }

  /** The `width` bytes of `data` at `at` (binary.LittleEndian.UintN). */
  function ReadUint(data: seq<byte>, at: nat, width: nat): nat
    requires at + width <= |data|
    decreases data, width
  {
    if width == 0 then 0 else data[at] as int + 0x100 * ReadUint(data, at + 1, width - 1)
  }

  function Pow256(width: nat): (p: nat)
    ensures p > 0
  {
    if width == 0 then 1 else 0x100 * Pow256(width - 1)
  }

  lemma {:induction false} ReadUintOfWritten(data: seq<byte>, at: nat, n: nat, width: nat)
    requires at + width <= |data| && n < Pow256(width)
    requires data[at..at + width] == ToLittleEndian(n, width)
    ensures ReadUint(data, at, width) == n
    decreases width
  {
    if width > 0 {
      assert data[at] == ToLittleEndian(n, width)[0];
      assert data[at + 1..at + width] == ToLittleEndian(n, width)[1..] == ToLittleEndian(n / 0x100, width - 1);
      ReadUintOfWritten(data, at + 1, n / 0x100, width - 1);
    }
  }

  lemma {:induction false} ReadUintBound(data: seq<byte>, at: nat, width: nat)
    requires at + width <= |data|
    ensures ReadUint(data, at, width) < Pow256(width)
    decreases width
  {
    if width > 0 {
      ReadUintBound(data, at + 1, width - 1);
    }
  }

  lemma {:induction false} ReadUintPrefix(data: seq<byte>, cut: nat, at: nat, width: nat)
    requires at + width <= cut <= |data|
    ensures ReadUint(data[..cut], at, width) == ReadUint(data, at, width)
    decreases width
  {
    if width > 0 {
      ReadUintPrefix(data, cut, at + 1, width - 1);
    }
  }

  lemma Widths()
    ensures Pow256(2) == TWO_16 && Pow256(4) == TWO_32 && Pow256(8) == TWO_64
  {
    assert Pow256(1) == 0x100;
    assert Pow256(2) == TWO_16;
    assert Pow256(3) == 0x100_0000;
    assert Pow256(4) == TWO_32;
    assert Pow256(5) == 0x100_0000_0000;
    assert Pow256(6) == 0x1_0000_0000_0000;
    assert Pow256(7) == 0x100_0000_0000_0000;
  }

  /** Go's truncating conversions. */
  function Uint16(n: nat): nat {
    if n < TWO_16 then n else n % TWO_16
  }

  function Uint32(n: nat): nat {
    if n < TWO_32 then n else n % TWO_32
  }

  /** Go's conversion of an int64 to uint64, and back. */
  function ToUint64(i: int): nat {
    if 0 <= i < TWO_64 then i else i % TWO_64
  }

  function FromUint64(u: nat): int {
    if u < TWO_63 then u else u - TWO_64
  }

  // ---------------------------------------------------------------- one frame

  predicate IsInt64(i: int) {
    -TWO_63 <= i < TWO_63
  }

  /** What Go's type guarantees of every entry. */
  predicate WellTyped(e: LogEntry) {
    IsInt64(e.index) && IsInt64(e.term)
  }

  /** The entries that the codec carries: see StreamRoundTripExact. */
  predicate Encodable(e: LogEntry) {
    && |e.schedulerId| <= 65513
    && 22 + |e.schedulerId| + |e.payload| < TWO_32
  }

  function BodySize(e: LogEntry): nat {
    18 + |e.schedulerId| + |e.payload|
  }

  function Header(e: LogEntry): (s: seq<byte>)
    ensures |s| == 22
  {
    ToLittleEndian(BodySize(e), 4)
    + ToLittleEndian(ToUint64(e.index), 8)
    + ToLittleEndian(ToUint64(e.term), 8)
    + ToLittleEndian(|e.schedulerId|, 2)
  }

  function Encode(e: LogEntry): (s: seq<byte>)
    ensures |s| == 4 + BodySize(e)
  {
    Header(e) + e.schedulerId + e.payload
  }

  /** `Panics` is a Go slice-bounds panic, which ends the process. */
  datatype Decoded = Entry(entry: LogEntry) | Corrupt | Panics

  function Decode(data: seq<byte>): Decoded {
    if |data| < 4 then Corrupt else
    var size := ReadUint(data, 0, 4);
    if size < 18 then Corrupt else
    if Uint32(|data|) < Uint32(4 + size) then Corrupt else
    if |data| < 22 then Panics else
    var idLength := ReadUint(data, 20, 2);
    if Uint16(18 + idLength) > size then Corrupt else
    if !Sliceable(|data|, size, idLength) then Panics else
    Entry(LogEntry(FromUint64(ReadUint(data, 4, 8)),
                   FromUint64(ReadUint(data, 12, 8)),
                   data[22..22 + idLength],
                   data[22 + idLength..4 + size]))
  }

  /** The bounds of `data[22 : 22+idLength]` and of the payload slice. The upper bound 22+idLength is a uint16: had
      it wrapped, it would lie below 22. */
  predicate Sliceable(length: nat, size: nat, idLength: nat) {
    && 22 + idLength < TWO_16
    && 22 + idLength <= 4 + size <= length
  }

  /** The header fields of a frame that is followed by any bytes at all. */
  lemma HeaderFields(e: LogEntry, s: seq<byte>)
    requires WellTyped(e) && Encodable(e) && Header(e) <= s
    ensures ReadUint(s, 0, 4) == BodySize(e)
    ensures FromUint64(ReadUint(s, 4, 8)) == e.index
    ensures FromUint64(ReadUint(s, 12, 8)) == e.term
    ensures ReadUint(s, 20, 2) == |e.schedulerId|
  {
    Widths();
    FourParts(ToLittleEndian(BodySize(e), 4), ToLittleEndian(ToUint64(e.index), 8),
              ToLittleEndian(ToUint64(e.term), 8), ToLittleEndian(|e.schedulerId|, 2));
    HeaderField(e, s, 0, BodySize(e), 4);
    HeaderField(e, s, 4, ToUint64(e.index), 8);
    HeaderField(e, s, 12, ToUint64(e.term), 8);
    HeaderField(e, s, 20, |e.schedulerId|, 2);
  }

  lemma FourParts(a: seq<byte>, b: seq<byte>, c: seq<byte>, d: seq<byte>)
    requires |a| == 4 && |b| == 8 && |c| == 8 && |d| == 2
    ensures var s := a + b + c + d;
            s[0..4] == a && s[4..12] == b && s[12..20] == c && s[20..22] == d
  {
  }

  lemma HeaderField(e: LogEntry, s: seq<byte>, at: nat, n: nat, width: nat)
    requires Header(e) <= s && at + width <= 22 && n < Pow256(width)
    requires Header(e)[at..at + width] == ToLittleEndian(n, width)
    ensures ReadUint(s, at, width) == n
  {
    assert Header(e)[at..at + width] == s[at..at + width];
    ReadUintOfWritten(s, at, n, width);
  }

  lemma DecodeEncode(e: LogEntry)
    requires WellTyped(e) && Encodable(e)
    ensures Decode(Encode(e)) == Entry(e)
  {
    var s := Encode(e);
    HeaderFields(e, s);
    assert s[22..22 + |e.schedulerId|] == e.schedulerId;
    assert s[22 + |e.schedulerId|..4 + BodySize(e)] == e.payload;
    assert Sliceable(|s|, BodySize(e), |e.schedulerId|);
  }

  // ---------------------------------------------------------------- the stream

  function EncodeAll(es: seq<LogEntry>): seq<byte> {
    EncodeFirst(es, |es|)
  }

  function EncodeFirst(es: seq<LogEntry>, n: nat): seq<byte>
    requires n <= |es|
  {
    if n == 0 then [] else EncodeFirst(es, n - 1) + Encode(es[n - 1])
  }

  lemma {:induction false} EncodeFirstPrefix(es: seq<LogEntry>, more: seq<LogEntry>, n: nat)
    requires n <= |es|
    ensures EncodeFirst(es + more, n) == EncodeFirst(es, n)
  {
    if n > 0 {
      EncodeFirstPrefix(es, more, n - 1);
    }
  }

  datatype ReadResult = ReadOk(entries: seq<LogEntry>, size: nat) | ReadError | ReadPanic

  /** One turn of the read loop on a non-empty stream: the header, the body, the decoder. `StreamPanics` covers
      the decoder's panics and `buf[:4]` on a buffer whose uint32 size `4+entrySize` wrapped below four. */
  datatype Frame = Frame(entry: LogEntry, length: nat) | BadFrame | StreamPanics

  function ReadFrame(data: seq<byte>): (f: Frame)
    requires data != []
    ensures f.Frame? ==> 22 <= f.length <= |data|
  {
    if |data| < 4 then BadFrame else
    var size := ReadUint(data, 0, 4);
    if Uint32(4 + size) < 4 then StreamPanics else
    if |data| < 4 + size then BadFrame else
    match Decode(data[..4 + size])
    case Entry(e) => Frame(e, 4 + size)
    case Corrupt => BadFrame
    case Panics => StreamPanics
  }

  /** readLogEntries, as a recursion over the bytes that are left. */
  function ReadAll(data: seq<byte>): (r: ReadResult) {
    if data == [] then ReadOk([], 0) else
    match ReadFrame(data)
    case BadFrame => ReadError
    case StreamPanics => ReadPanic
    case Frame(e, length) => Prepend([e], length, ReadAll(data[length..]))
  }

  function Prepend(es: seq<LogEntry>, size: nat, r: ReadResult): ReadResult {
    if r.ReadOk? then ReadOk(es + r.entries, size + r.size) else r
  }

  lemma ReadFrameOfEncoded(e: LogEntry, rest: seq<byte>)
    requires WellTyped(e) && Encodable(e)
    ensures ReadFrame(Encode(e) + rest) == Frame(e, |Encode(e)|)
  {
    var s := Encode(e) + rest;
    HeaderFields(e, s);
    assert s[..4 + BodySize(e)] == Encode(e);
    DecodeEncode(e);
  }

  lemma EncodeAllSnoc(es: seq<LogEntry>, e: LogEntry)
    ensures EncodeAll(es + [e]) == EncodeAll(es) + Encode(e)
  {
    EncodeFirstPrefix(es, [e], |es|);
  }

  lemma {:induction false} EncodeAllSplits(es: seq<LogEntry>, more: seq<LogEntry>)
    ensures EncodeAll(es + more) == EncodeAll(es) + EncodeAll(more)
    decreases |more|
  {
    if more == [] {
      assert es + more == es;
    } else {
      var init, last := more[..|more| - 1], more[|more| - 1];
      EncodeAllSplits(es, init);
      EncodeAllSnoc(es + init, last);
      assert es + more == (es + init) + [last];
      EncodeAllSnoc(init, last);
      assert more == init + [last];
      assert (EncodeAll(es) + EncodeAll(init)) + Encode(last) == EncodeAll(es) + (EncodeAll(init) + Encode(last));
    }
  }

  lemma EncodeAllHead(es: seq<LogEntry>)
    requires es != []
    ensures EncodeAll(es) == Encode(es[0]) + EncodeAll(es[1..])
  {
    EncodeAllSplits(es[..1], es[1..]);
    assert es == es[..1] + es[1..];
    EncodeAllSnoc([], es[0]);
    assert es[..1] == [] + [es[0]];
    assert EncodeAll(es[..1]) == Encode(es[0]);
  }

  ghost predicate AllEncodable(es: seq<LogEntry>) {
    forall i :: 0 <= i < |es| ==> WellTyped(es[i]) && Encodable(es[i])
  }

  lemma ReadAllOfEncoded(e: LogEntry, rest: seq<byte>)
    requires WellTyped(e) && Encodable(e)
    ensures ReadAll(Encode(e) + rest) == Prepend([e], |Encode(e)|, ReadAll(rest))
  {
    ReadFrameOfEncoded(e, rest);
    assert (Encode(e) + rest)[|Encode(e)|..] == rest;
  }

  lemma {:induction false} StreamRoundTrip(es: seq<LogEntry>)
    requires AllEncodable(es)
    ensures ReadAll(EncodeAll(es)) == ReadOk(es, |EncodeAll(es)|)
  {
    if es != [] {
      var tail := es[1..];
      EncodeAllHead(es);
      StreamRoundTrip(tail);
      ReadAllOfEncoded(es[0], EncodeAll(tail));
      assert [es[0]] + tail == es;
    }
  }

  /** The reader never hands out an entry that the writer could not have framed faithfully. */
  lemma {:induction false} ReadAllYieldsEncodable(data: seq<byte>, i: nat)
    requires ReadAll(data).ReadOk? && i < |ReadAll(data).entries|
    ensures Encodable(ReadAll(data).entries[i])
    decreases |data|
  {
    var f := ReadFrame(data);
    var rest := ReadAll(data[f.length..]);
    assert ReadAll(data).entries == [f.entry] + rest.entries;
    if i == 0 {
      ReadUintBound(data, 0, 4);
      Widths();
      var d := data[..f.length];
      ReadUintPrefix(data, f.length, 0, 4);
      assert Decode(d) == Entry(f.entry);
    } else {
      ReadAllYieldsEncodable(data[f.length..], i - 1);
    }
  }

  /** A list of entries comes back from its own stream exactly when every entry has an id of at most 65513 bytes
      and a frame below 2^32 bytes. Beyond either limit the reader panics, fails or returns other entries. */
  lemma StreamRoundTripExact(es: seq<LogEntry>)
    requires forall i :: 0 <= i < |es| ==> WellTyped(es[i])
    ensures ReadAll(EncodeAll(es)) == ReadOk(es, |EncodeAll(es)|)
            <==> forall i :: 0 <= i < |es| ==> Encodable(es[i])
  {
    if forall i :: 0 <= i < |es| ==> Encodable(es[i]) {
      StreamRoundTrip(es);
    }
    if ReadAll(EncodeAll(es)) == ReadOk(es, |EncodeAll(es)|) {
      forall i | 0 <= i < |es| ensures Encodable(es[i]) {
        ReadAllYieldsEncodable(EncodeAll(es), i);
      }
    }
  }

  /** An id of 65514 to 65535 bytes makes the decoder's uint16 sum 22+idLength wrap: it panics on its own writer's
      output, whatever else the entry holds, so a log file holding such an entry cannot be reloaded. */
  lemma LongIdPanics(e: LogEntry)
    requires 65514 <= |e.schedulerId| < TWO_16 && 22 + |e.schedulerId| + |e.payload| < TWO_32
    ensures Decode(Encode(e)) == Panics && ReadAll(Encode(e)) == ReadPanic
  {
    var s := Encode(e);
    Widths();
    FourParts(ToLittleEndian(BodySize(e), 4), ToLittleEndian(ToUint64(e.index), 8),
              ToLittleEndian(ToUint64(e.term), 8), ToLittleEndian(|e.schedulerId|, 2));
    HeaderField(e, s, 0, BodySize(e), 4);
    HeaderField(e, s, 20, |e.schedulerId|, 2);
    assert s[..4 + BodySize(e)] == s;
    assert !Sliceable(|s|, BodySize(e), |e.schedulerId|);
    assert Decode(s) == Panics;
  }

  // ---------------------------------------------------------------- cutting the stream

  ghost predicate IsBoundary(es: seq<LogEntry>, cut: nat, j: nat) {
    j <= |es| && |EncodeAll(es[..j])| == cut
  }

  /** A frame that lost its tail is an error: never a panic, and never mistaken for another entry. */
  lemma ShortFrameIsAnError(e: LogEntry, cut: nat)
    requires WellTyped(e) && Encodable(e) && 0 < cut < |Encode(e)|
    ensures ReadAll(Encode(e)[..cut]) == ReadError
  {
    var s := Encode(e);
    HeaderFields(e, s);
    if 4 <= cut {
      ReadUintPrefix(s, cut, 0, 4);
    }
    assert ReadFrame(s[..cut]) == BadFrame;
  }

  lemma {:induction false} CutInsideFrame(es: seq<LogEntry>, cut: nat)
    requires AllEncodable(es) && cut <= |EncodeAll(es)|
    requires forall j: nat :: !IsBoundary(es, cut, j)
    ensures ReadAll(EncodeAll(es)[..cut]) == ReadError
    decreases |es|
  {
    assert !IsBoundary(es, cut, 0);
    if es != [] {
      var first, tail := |Encode(es[0])|, es[1..];
      EncodeAllHead(es);
      if cut < first {
        assert EncodeAll(es)[..cut] == Encode(es[0])[..cut];
        ShortFrameIsAnError(es[0], cut);
      } else {
        var within := cut - first;
        forall j: nat | IsBoundary(tail, within, j) ensures false {
          EncodeAllHead(es[..j + 1]);
          assert es[..j + 1][1..] == tail[..j];
          assert IsBoundary(es, cut, j + 1);
        }
        CutInsideFrame(tail, within);
        var rest := EncodeAll(tail)[..cut - first];
        assert EncodeAll(es)[..cut] == Encode(es[0]) + rest;
        ReadAllOfEncoded(es[0], rest);
      }
    }
  }

  lemma CutAtBoundary(es: seq<LogEntry>, cut: nat, j: nat)
    requires AllEncodable(es) && IsBoundary(es, cut, j)
    ensures cut <= |EncodeAll(es)| && ReadAll(EncodeAll(es)[..cut]) == ReadOk(es[..j], cut)
  {
    var before, after := es[..j], es[j..];
    EncodeAllSplits(before, after);
    assert before + after == es;
    assert EncodeAll(es)[..cut] == EncodeAll(before);
    StreamRoundTrip(before);
  }

  /** Cutting a written stream anywhere yields exactly the entries before the cut when the cut falls between two
      frames, and an error otherwise: a torn write is always noticed. */
  lemma CutDetection(es: seq<LogEntry>, cut: nat)
    requires AllEncodable(es) && cut <= |EncodeAll(es)|
    ensures forall j: nat :: IsBoundary(es, cut, j) ==> ReadAll(EncodeAll(es)[..cut]) == ReadOk(es[..j], cut)
    ensures (forall j: nat :: !IsBoundary(es, cut, j)) ==> ReadAll(EncodeAll(es)[..cut]) == ReadError
  {
    forall j: nat | IsBoundary(es, cut, j) ensures ReadAll(EncodeAll(es)[..cut]) == ReadOk(es[..j], cut) {
      CutAtBoundary(es, cut, j);
    }
    if forall j: nat :: !IsBoundary(es, cut, j) {
      CutInsideFrame(es, cut);
    }
  }

  // ---------------------------------------------------------------- the bytes of a frame

  /** Byte `k` of a number, counted from its least significant one. */
  function NthByte(n: nat, k: nat): nat {
    if k == 0 then n % 0x100 else NthByte(n / 0x100, k - 1)
  }

  lemma {:induction false} LittleEndianByte(n: nat, width: nat, k: nat)
    requires k < width
    ensures ToLittleEndian(n, width)[k] as int == NthByte(n, k)
  {
    if k > 0 {
      LittleEndianByte(n / 0x100, width - 1, k - 1);
    }
  }

  lemma Uint64Modulo(i: int)
    ensures ToUint64(i) == i % TWO_64
  {
  }

  lemma HeaderByte(e: LogEntry, k: nat)
    requires k < 22
    ensures Encode(e)[k] as int == if k < 4 then NthByte(BodySize(e), k)
                                   else if k < 12 then NthByte(ToUint64(e.index), k - 4)
                                   else if k < 20 then NthByte(ToUint64(e.term), k - 12)
                                   else NthByte(|e.schedulerId|, k - 20)
  {
    assert Encode(e)[k] == Header(e)[k];
    if k < 4 {
      LittleEndianByte(BodySize(e), 4, k);
    } else if k < 12 {
      LittleEndianByte(ToUint64(e.index), 8, k - 4);
    } else if k < 20 {
      LittleEndianByte(ToUint64(e.term), 8, k - 12);
    } else {
      LittleEndianByte(|e.schedulerId|, 2, k - 20);
    }
  }

  /** The frame as it lies in the file: the length of all that follows its own four bytes, index and term as 64-bit
      two's complement, the length of the id, the id and the payload. Numbers begin with the least significant byte. */
  lemma FrameLayout(e: LogEntry, k: nat)
    requires k < 22 + |e.schedulerId| + |e.payload|
    ensures |Encode(e)| == 22 + |e.schedulerId| + |e.payload|
    ensures k < 4 ==> Encode(e)[k] as int == NthByte(18 + |e.schedulerId| + |e.payload|, k)
    ensures 4 <= k < 12 ==> Encode(e)[k] as int == NthByte(e.index % TWO_64, k - 4)
    ensures 12 <= k < 20 ==> Encode(e)[k] as int == NthByte(e.term % TWO_64, k - 12)
    ensures 20 <= k < 22 ==> Encode(e)[k] as int == NthByte(|e.schedulerId|, k - 20)
    ensures 22 <= k < 22 + |e.schedulerId| ==> Encode(e)[k] == e.schedulerId[k - 22]
    ensures 22 + |e.schedulerId| <= k ==> Encode(e)[k] == e.payload[k - 22 - |e.schedulerId|]
  {
    Uint64Modulo(e.index);
    Uint64Modulo(e.term);
    if k < 22 {
      HeaderByte(e, k);
    }
  }

  // ---------------------------------------------------------------- the loops

  /** Writes the low `width` bytes of `n` at `at`, one byte at a time. */
  method PutUint(buf: array<byte>, at: nat, n: nat, width: nat)
    requires at + width <= buf.Length
    modifies buf
    ensures buf[at..at + width] == ToLittleEndian(n, width)
    ensures forall k :: 0 <= k < at || at + width <= k < buf.Length ==> buf[k] == old(buf[k])
  {
    var i, left := 0, n;
    while i < width
      invariant i <= width
      invariant forall k :: 0 <= k < at || at + width <= k < buf.Length ==> buf[k] == old(buf[k])
      invariant buf[at..at + i] + ToLittleEndian(left, width - i) == ToLittleEndian(n, width)
    {
      ghost var done := buf[at..at + i];
      buf[at + i] := (left % 0x100) as byte;
      assert buf[at..at + i + 1] == done + [(left % 0x100) as byte];
      left, i := left / 0x100, i + 1;
    }
  }

  /** Go's `copy(buf[at:], data)` for data that fits. */
  method CopyInto(buf: array<byte>, at: nat, data: seq<byte>)
    requires at + |data| <= buf.Length
    modifies buf
    ensures buf[at..at + |data|] == data
    ensures forall k :: 0 <= k < at || at + |data| <= k < buf.Length ==> buf[k] == old(buf[k])
  {
    for i := 0 to |data|
      invariant forall k :: 0 <= k < at || at + |data| <= k < buf.Length ==> buf[k] == old(buf[k])
      invariant buf[at..at + i] == data[..i]
    {
      buf[at + i] := data[i];
    }
  }

  /** encodeLogEntry: the buffer is filled field by field. */
  method EncodeLogEntry(e: LogEntry) returns (buf: array<byte>)
    ensures fresh(buf) && buf[..] == Encode(e)
  {
    var idLength := |e.schedulerId|;
    buf := new byte[4 + BodySize(e)];
    PutHeader(buf, e);
    CopyInto(buf, 22, e.schedulerId);
    assert buf[..22 + idLength] == buf[..22] + buf[22..22 + idLength];
    CopyInto(buf, 22 + idLength, e.payload);
    assert buf[..] == buf[..22 + idLength] + buf[22 + idLength..22 + idLength + |e.payload|];
  }

  method PutHeader(buf: array<byte>, e: LogEntry)
    requires buf.Length == 4 + BodySize(e)
    modifies buf
    ensures buf[..22] == Header(e)
  {
    ghost var size := PutNext(buf, 0, BodySize(e), 4);
    ghost var index := PutNext(buf, 4, ToUint64(e.index), 8);
    ghost var term := PutNext(buf, 12, ToUint64(e.term), 8);
    ghost var length := PutNext(buf, 20, |e.schedulerId|, 2);
    assert buf[..22] == size + index + term + length;
  }

  /** One more field behind what has been filled. */
  method PutNext(buf: array<byte>, at: nat, n: nat, width: nat) returns (ghost field: seq<byte>)
    requires at + width <= buf.Length
    modifies buf
    ensures field == ToLittleEndian(n, width)
    ensures buf[..at + width] == old(buf[..at]) + field
  {
    PutUint(buf, at, n, width);
    field := buf[at..at + width];
    assert buf[..at + width] == buf[..at] + buf[at..at + width];
  }

  /** readLogEntries: frames are taken off the stream until it ends, fails or panics. */
  method ReadLogEntries(data: seq<byte>) returns (r: ReadResult)
    ensures r == ReadAll(data)
  {
    var entries, size := [], 0;
    var left := data;
    while left != []
      invariant ReadAll(data) == Prepend(entries, size, ReadAll(left))
      decreases |left|
    {
      match ReadFrame(left) {
        case BadFrame => return ReadError;
        case StreamPanics => return ReadPanic;
        case Frame(e, length) =>
          var rest := ReadAll(left[length..]);
          assert rest.ReadOk? ==> entries + ([e] + rest.entries) == (entries + [e]) + rest.entries;
          entries, size, left := entries + [e], size + length, left[length..];
      }
    }
    r := ReadOk(entries, size);
  }
}
