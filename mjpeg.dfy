/**
 * backend/app/mjpeg.py: the live frame table (the last JPEG bytes per camera id, with no
 * history) and the framing of one part of the `multipart/x-mixed-replace` stream that
 * `mjpeg_stream_generator` yields. The part layout follows the body-part structure of
 * section 5.1.1 of RFC 2046: a delimiter line, header fields, a blank line, the body, and
 * the CRLF that precedes the next delimiter.
 */
module Mjpeg {
  import opened Wrappers
  import Decimal

  newtype byte = x: int | 0 <= x < 256

  predicate IsAscii(s: string) {
    forall i :: 0 <= i < |s| ==> s[i] as int < 128
  }

  /** The bytes of an ASCII string (Python's `b"..."` literals and `str(...).encode()`). */
  function Ascii(s: string): (b: seq<byte>)
    requires IsAscii(s)
    ensures |b| == |s|
    ensures forall i :: 0 <= i < |s| ==> b[i] as int == s[i] as int
  {
    seq(|s|, i requires 0 <= i < |s| => s[i] as int as byte)
  }

  /** Reads bytes back as characters, one character per byte. */
  function AsciiDecode(b: seq<byte>): (s: string)
    ensures |s| == |b|
    ensures forall i :: 0 <= i < |b| ==> s[i] as int == b[i] as int
  {
    seq(|b|, i requires 0 <= i < |b| => b[i] as int as char)
  }

  lemma AsciiDecodeOfAscii(s: string)
    requires IsAscii(s)
    ensures AsciiDecode(Ascii(s)) == s
  {
    var d := AsciiDecode(Ascii(s));
    assert |d| == |s|;
    forall i | 0 <= i < |s| ensures d[i] == s[i] {
      assert d[i] as int == s[i] as int;
    }
  }

  /** Bytes below 128 read as characters and written back are the same bytes. */
  lemma AsciiOfAsciiDecode(b: seq<byte>)
    requires forall i :: 0 <= i < |b| ==> b[i] as int < 128
    ensures IsAscii(AsciiDecode(b)) && Ascii(AsciiDecode(b)) == b
  {
    var d := AsciiDecode(b);
    assert IsAscii(d) by {
      forall i | 0 <= i < |d| ensures d[i] as int < 128 {
        assert d[i] as int == b[i] as int;
      }
    }
  }

  lemma DigitsAreAscii(s: string)
    requires Decimal.AllDigits(s)
    ensures IsAscii(s)
  {
    assert forall i :: 0 <= i < |s| ==> Decimal.IsDigit(s[i]);
  }

  /** The boundary the generator writes before every part. */
  const BoundaryText: string := "--frame"
  /** The header fields after the boundary, up to the Content-Length value. */
  const HeadersText: string := "\r\nContent-Type: image/jpeg\r\nContent-Length: "
  const BlankLineText: string := "\r\n\r\n"
  const CrlfText: string := "\r\n"

  lemma LiteralsAreAscii()
    ensures IsAscii(BoundaryText) && IsAscii(HeadersText) && IsAscii(BlankLineText) && IsAscii(CrlfText)
  {
  }

  /** `str(len(frame)).encode()`: the decimal byte length of the payload. */
  function ContentLength(frame: seq<byte>): (b: seq<byte>)
    ensures AsciiDecode(b) == Decimal.NatToString(|frame|)
  {
    var s := Decimal.NatToString(|frame|);
    DigitsAreAscii(s);
    AsciiDecodeOfAscii(s);
    Ascii(s)
  }

  /** One multipart part as `mjpeg_stream_generator` builds it. */
  function Chunk(frame: seq<byte>): (c: seq<byte>)
    ensures |c| == 7 + 44 + |Decimal.NatToString(|frame|)| + 4 + |frame| + 2
    ensures c[|c| - |frame| - 2..|c| - 2] == frame
    ensures c[|c| - 2] as int == '\r' as int && c[|c| - 1] as int == '\n' as int
  {
    LiteralsAreAscii();
    Ascii(BoundaryText) + Ascii(HeadersText) + ContentLength(frame) + Ascii(BlankLineText) + frame + Ascii(CrlfText)
  }

  predicate IsDigitByte(b: byte) {
    '0' as int <= b as int <= '9' as int
  }

  /** Length of the run of digit bytes at the start of `s`. */
  function DigitRun(s: seq<byte>): (n: nat)
    ensures n <= |s|
    ensures forall i :: 0 <= i < n ==> IsDigitByte(s[i])
    ensures n < |s| ==> !IsDigitByte(s[n])
  {
    if s == [] || !IsDigitByte(s[0]) then 0 else 1 + DigitRun(s[1..])
  }

  /**
   * A reader of one part: the fixed boundary and headers, a decimal Content-Length written
   * without leading zeros, the blank line, exactly that many payload bytes, and the closing CRLF.
   */
  function ParseChunk(c: seq<byte>): Option<seq<byte>> {
    LiteralsAreAscii();
    var head := Ascii(BoundaryText) + Ascii(HeadersText);
    if |c| < |head| || c[..|head|] != head then None else ParseAfterHeaders(c[|head|..])
  }

  /** The Content-Length value (canonical decimal digits) and what follows it. */
  function ParseAfterHeaders(rest: seq<byte>): Option<seq<byte>> {
    var n := DigitRun(rest);
    if n == 0 then None
    else
      var digits := AsciiDecode(rest[..n]);
      assert Decimal.AllDigits(digits) by {
        forall i | 0 <= i < n ensures Decimal.IsDigit(digits[i]) {
          assert digits[i] as int == rest[i] as int;
        }
      }
      var len := Decimal.DigitsValue(digits);
      if digits != Decimal.NatToString(len) then None else ParseBody(rest[n..], len)
  }

  /** The blank line, `len` payload bytes and the closing CRLF. */
  function ParseBody(body: seq<byte>, len: nat): Option<seq<byte>> {
    LiteralsAreAscii();
    if |body| != 4 + len + 2 || body[..4] != Ascii(BlankLineText) || body[4 + len..] != Ascii(CrlfText) then None
    else Some(body[4..4 + len])
  }

  lemma {:induction false} DigitRunOfDigits(a: seq<byte>, b: seq<byte>)
    requires forall i :: 0 <= i < |a| ==> IsDigitByte(a[i])
    requires b != [] && !IsDigitByte(b[0])
    ensures DigitRun(a + b) == |a|
    decreases |a|
  {
    if a == [] {
      assert a + b == b;
    } else {
      assert (a + b)[1..] == a[1..] + b;
      DigitRunOfDigits(a[1..], b);
    }
  }

  /** The Content-Length bytes are a non-empty run of digits whose value is the payload length. */
  lemma ContentLengthDigits(frame: seq<byte>)
    ensures |ContentLength(frame)| > 0
    ensures forall i :: 0 <= i < |ContentLength(frame)| ==> IsDigitByte(ContentLength(frame)[i])
    ensures Decimal.DigitsValue(AsciiDecode(ContentLength(frame))) == |frame|
  {
    var len := ContentLength(frame);
    var s := Decimal.NatToString(|frame|);
    forall i | 0 <= i < |len| ensures IsDigitByte(len[i]) {
      assert AsciiDecode(len)[i] == s[i];
      assert Decimal.IsDigit(s[i]);
    }
    Decimal.NatToStringRoundTrip(|frame|);
  }

  /** The part after the Content-Length value: blank line, payload, CRLF. */
  lemma BodyOfChunk(frame: seq<byte>)
    ensures var body := Ascii(BlankLineText) + frame + Ascii(CrlfText);
      && |body| == 4 + |frame| + 2
      && body[0] as int == '\r' as int
      && body[..4] == Ascii(BlankLineText)
      && body[4 + |frame|..] == Ascii(CrlfText)
      && body[4..4 + |frame|] == frame
  {
    var body := Ascii(BlankLineText) + frame + Ascii(CrlfText);
    assert body == Ascii(BlankLineText) + (frame + Ascii(CrlfText));
  }

  /** Reading a part back yields exactly the frame: the length header is the payload's byte length, and the payload is unmodified. */
  lemma ChunkRoundTrip(frame: seq<byte>)
    ensures ParseChunk(Chunk(frame)) == Some(frame)
  {
    LiteralsAreAscii();
    var head := Ascii(BoundaryText) + Ascii(HeadersText);
    var len := ContentLength(frame);
    var tail := Ascii(BlankLineText) + frame + Ascii(CrlfText);
    var c := Chunk(frame);
    assert c == head + (len + tail);
    assert c[..|head|] == head;
    var rest := c[|head|..];
    assert rest == len + tail;
    ContentLengthDigits(frame);
    BodyOfChunk(frame);
    DigitRunOfDigits(len, tail);
    assert rest[..|len|] == len;
    assert rest[|len|..] == tail;
    Decimal.NatToStringRoundTrip(|frame|);
    assert ParseBody(tail, |frame|) == Some(frame);
  }

  lemma ParseBodyOnly(body: seq<byte>, len: nat, frame: seq<byte>)
    requires ParseBody(body, len) == Some(frame)
    ensures |frame| == len && body == Ascii(BlankLineText) + frame + Ascii(CrlfText)
  {
    LiteralsAreAscii();
    assert body == body[..4] + body[4..4 + len] + body[4 + len..];
  }

  /** Digit bytes that spell the canonical decimal of a frame's length are its Content-Length. */
  lemma ContentLengthOfDigits(b: seq<byte>, frame: seq<byte>)
    requires forall i :: 0 <= i < |b| ==> IsDigitByte(b[i])
    requires AsciiDecode(b) == Decimal.NatToString(|frame|)
    ensures ContentLength(frame) == b
  {
    forall i | 0 <= i < |b| ensures b[i] as int < 128 {
      assert IsDigitByte(b[i]);
    }
    AsciiOfAsciiDecode(b);
  }

  lemma ParseAfterHeadersOnly(rest: seq<byte>, frame: seq<byte>)
    requires ParseAfterHeaders(rest) == Some(frame)
    ensures rest == ContentLength(frame) + (Ascii(BlankLineText) + frame + Ascii(CrlfText))
  {
    var n := DigitRun(rest);
    var len := Decimal.DigitsValue(AsciiDecode(rest[..n]));
    ParseBodyOnly(rest[n..], len, frame);
    ContentLengthOfDigits(rest[..n], frame);
    assert rest == rest[..n] + rest[n..];
  }

  /** Conversely, the only bytes that read back as a frame are the part built for that frame. */
  lemma ParseChunkOnlyChunks(c: seq<byte>, frame: seq<byte>)
    requires ParseChunk(c) == Some(frame)
    ensures c == Chunk(frame)
  {
    LiteralsAreAscii();
    var head := Ascii(BoundaryText) + Ascii(HeadersText);
    assert c[..|head|] == head;
    ParseAfterHeadersOnly(c[|head|..], frame);
    ChunkShape(frame);
    assert c == c[..|head|] + c[|head|..];
  }

  /** `Chunk` regrouped as boundary and headers, Content-Length, then the body. */
  lemma ChunkShape(frame: seq<byte>)
    ensures IsAscii(BoundaryText) && IsAscii(HeadersText) && IsAscii(BlankLineText) && IsAscii(CrlfText) &&
      Chunk(frame) == (Ascii(BoundaryText) + Ascii(HeadersText))
                      + (ContentLength(frame) + (Ascii(BlankLineText) + frame + Ascii(CrlfText)))
  {
    LiteralsAreAscii();
  }

  /** One iteration of the generator: a part only for a frame that is present and non-empty (`if frame:`). */
  function StreamChunk(frame: Option<seq<byte>>): (r: Option<seq<byte>>)
    ensures r.Some? <==> frame.Some? && frame.value != []
    ensures r.Some? ==> r.value == Chunk(frame.value) && ParseChunk(r.value) == Some(frame.value)
  {
    if frame.Some? && frame.value != [] then
      ChunkRoundTrip(frame.value);
      Some(Chunk(frame.value))
    else None
  }

  /** The table `_latest`: camera id to the JPEG bytes of its most recent frame. */
  class LiveFrames {
    var latest: map<string, seq<byte>>

    constructor ()
      ensures latest == map[]
    {
      latest := map[];
    }

    /** `update_frame`: overwrite the slot of this camera, and only that slot. */
    method UpdateFrame(cameraId: string, jpeg: seq<byte>)
      modifies this
      ensures latest == old(latest)[cameraId := jpeg]
      ensures forall c :: c != cameraId ==> Lookup(latest, c) == Lookup(old(latest), c)
    {
      latest := latest[cameraId := jpeg];
    }

    /** `_latest.get(camera_id)`: `None` for a camera that never published. */
    function Get(cameraId: string): (r: Option<seq<byte>>)
      reads this
      ensures r.Some? <==> cameraId in latest
      ensures r.Some? ==> r.value == latest[cameraId]
    {
      Lookup(latest, cameraId)
    }

    /** One pass of `mjpeg_stream_generator`'s loop, which reads the table and changes nothing. */
    method NextChunk(cameraId: string) returns (chunk: Option<seq<byte>>)
      ensures chunk.Some? <==> cameraId in latest && latest[cameraId] != []
      ensures chunk.Some? ==> chunk.value == Chunk(latest[cameraId])
      ensures chunk.Some? ==> ParseChunk(chunk.value) == Some(latest[cameraId])
    {
      var frame := Get(cameraId);
      chunk := StreamChunk(frame);
    }
  }

  function Lookup(m: map<string, seq<byte>>, cameraId: string): Option<seq<byte>> {
    if cameraId in m then Some(m[cameraId]) else None
  }

  /** The table after a sequence of `update_frame` calls, applied in order. */
  function Replay(m: map<string, seq<byte>>, updates: seq<(string, seq<byte>)>): map<string, seq<byte>>
    decreases |updates|
  {
    if updates == [] then m
    else Replay(m, updates[..|updates| - 1])[updates[|updates| - 1].0 := updates[|updates| - 1].1]
  }

  /** The bytes of the last update for a camera, if it has one. */
  function LastUpdate(updates: seq<(string, seq<byte>)>, cameraId: string): Option<seq<byte>>
    decreases |updates|
  {
    if updates == [] then None
    else if updates[|updates| - 1].0 == cameraId then Some(updates[|updates| - 1].1)
    else LastUpdate(updates[..|updates| - 1], cameraId)
  }

  /** Last value wins: a lookup sees the most recent update for that camera, or the old value if there was none. */
  lemma {:induction false} ReplayLastWins(m: map<string, seq<byte>>, updates: seq<(string, seq<byte>)>, cameraId: string)
    ensures Lookup(Replay(m, updates), cameraId) ==
      if LastUpdate(updates, cameraId).Some? then LastUpdate(updates, cameraId) else Lookup(m, cameraId)
    decreases |updates|
  {
    if updates != [] {
      ReplayLastWins(m, updates[..|updates| - 1], cameraId);
    }
  }
}
