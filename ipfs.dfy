/** `ipfsService.uploadDocument`: the stand-in pinning response. Its content
    "hash" is `Qm` followed by the first 44 lower-case hex characters of the
    UTF-8 bytes of the file name with the clock reading appended; the clock
    is the parameter `now`. */
module Ipfs {
  import opened Wrappers
  import opened Numerals
  import opened Js

  newtype byte = x: int | 0 <= x < 256

  const HashPrefix := "Qm"
  const HashHexLength := 44
  const GatewayBase := "https://gateway.pinata.cloud/ipfs/"
  const UploadErrorCode := "IPFS_UPLOAD_FAILED"
  const UploadFailedMessage := "The document could not be uploaded to IPFS."

  function Min(a: int, b: int): int {
    if a <= b then a else b
  }

  // ---------------------------------------------------------------------
  // UTF-8 (`Buffer.from(string)`)

  /** The UTF-8 bytes of one Unicode scalar value. */
  function EncodeChar(c: char): (b: seq<byte>)
    ensures 1 <= |b| <= 4
  {
    var n := c as int;
    if n < 0x80 then [n as byte]
    else if n < 0x800 then [(0xC0 + n / 64) as byte, (0x80 + n % 64) as byte]
    else if n < 0x10000 then
      var low := n % 4096;
      [(0xE0 + n / 4096) as byte, (0x80 + low / 64) as byte, (0x80 + low % 64) as byte]
    else
      var middle := n % 262144;
      var low := middle % 4096;
      [(0xF0 + n / 262144) as byte, (0x80 + middle / 4096) as byte,
       (0x80 + low / 64) as byte, (0x80 + low % 64) as byte]
  }

  function Utf8Encode(s: string): (b: seq<byte>)
    ensures |s| <= |b| <= 4 * |s|
  {
    if s == [] then [] else EncodeChar(s[0]) + Utf8Encode(s[1..])
  }

  predicate IsContinuation(b: byte) {
    0x80 <= b < 0xC0
  }

  /** The code point a well-formed sequence of one to four bytes encodes, if
      it encodes one in its shortest form. */
  function DecodeScalar(b: seq<byte>): (r: Option<char>)
    requires 1 <= |b| <= 4
  {
    var lead := b[0] as int;
    if |b| == 1 then
      if lead < 0x80 then Some(lead as char) else None
    else if !(forall i :: 1 <= i < |b| ==> IsContinuation(b[i])) then None
    else if |b| == 2 then
      var n := (lead - 0xC0) * 64 + (b[1] as int - 0x80);
      if 0xC0 <= lead < 0xE0 && 0x80 <= n then Some(n as char) else None
    else if |b| == 3 then
      var n := (lead - 0xE0) * 4096 + (b[1] as int - 0x80) * 64 + (b[2] as int - 0x80);
      if 0xE0 <= lead < 0xF0 && 0x800 <= n && !(0xD800 <= n < 0xE000) then Some(n as char) else None
    else
      var n := (lead - 0xF0) * 262144 + (b[1] as int - 0x80) * 4096 + (b[2] as int - 0x80) * 64 + (b[3] as int - 0x80);
      if 0xF0 <= lead < 0xF8 && 0x10000 <= n <= 0x10FFFF then Some(n as char) else None
  }

  /** How many bytes a lead byte announces (0 for a byte that cannot lead). */
  function SequenceLength(lead: byte): nat {
    if lead < 0x80 then 1
    else if 0xC0 <= lead < 0xE0 then 2
    else if 0xE0 <= lead < 0xF0 then 3
    else if 0xF0 <= lead < 0xF8 then 4
    else 0
  }

  /** Strict UTF-8 decoding: None for any ill-formed input. */
  function Utf8Decode(b: seq<byte>): Option<string>
    decreases |b|
  {
    if b == [] then Some([])
    else
      var k := SequenceLength(b[0]);
      if k == 0 || |b| < k then None
      else
        match DecodeScalar(b[..k])
        case None => None
        case Some(c) =>
          match Utf8Decode(b[k..])
          case None => None
          case Some(s) => Some([c] + s)
  }

  lemma OneByteDecodes(c: char)
    requires (c as int) < 0x80
    ensures var b := EncodeChar(c);
            SequenceLength(b[0]) == |b| && DecodeScalar(b) == Some(c)
  {
  }

  lemma TwoBytesDecode(c: char)
    requires 0x80 <= (c as int) < 0x800
    ensures var b := EncodeChar(c);
            SequenceLength(b[0]) == |b| && DecodeScalar(b) == Some(c)
  {
    var n := c as int;
    var hi, lo := n / 64, n % 64;
    assert hi * 64 + lo == n;
    assert EncodeChar(c) == [(0xC0 + hi) as byte, (0x80 + lo) as byte];
  }

  lemma ThreeBytesDecode(c: char)
    requires 0x800 <= (c as int) < 0x10000
    ensures var b := EncodeChar(c);
            SequenceLength(b[0]) == |b| && DecodeScalar(b) == Some(c)
  {
    var n := c as int;
    var hi, low := n / 4096, n % 4096;
    var mid, lo := low / 64, low % 64;
    assert hi * 4096 + low == n;
    assert mid * 64 + lo == low;
    var b := EncodeChar(c);
    assert b == [(0xE0 + hi) as byte, (0x80 + mid) as byte, (0x80 + lo) as byte];
    assert IsContinuation(b[1]) && IsContinuation(b[2]);
  }

  lemma FourBytesDecode(c: char)
    requires 0x10000 <= (c as int)
    ensures var b := EncodeChar(c);
            SequenceLength(b[0]) == |b| && DecodeScalar(b) == Some(c)
  {
    var n := c as int;
    var hi, middle := n / 262144, n % 262144;
    var b1, low := middle / 4096, middle % 4096;
    var b2, lo := low / 64, low % 64;
    assert hi * 262144 + middle == n;
    assert b1 * 4096 + low == middle;
    assert b2 * 64 + lo == low;
    var b := EncodeChar(c);
    assert b == [(0xF0 + hi) as byte, (0x80 + b1) as byte, (0x80 + b2) as byte, (0x80 + lo) as byte];
    assert IsContinuation(b[1]) && IsContinuation(b[2]) && IsContinuation(b[3]);
  }

  lemma EncodeCharDecodes(c: char)
    ensures var b := EncodeChar(c);
            SequenceLength(b[0]) == |b| && DecodeScalar(b) == Some(c)
  {
    var n := c as int;
    if n < 0x80 {
      OneByteDecodes(c);
    } else if n < 0x800 {
      TwoBytesDecode(c);
    } else if n < 0x10000 {
      ThreeBytesDecode(c);
    } else {
      FourBytesDecode(c);
    }
  }

  /** UTF-8 decoding undoes encoding. */
  lemma {:induction false} Utf8RoundTrip(s: string)
    ensures Utf8Decode(Utf8Encode(s)) == Some(s)
    decreases |s|
  {
    if s != [] {
      var head := EncodeChar(s[0]);
      var b := Utf8Encode(s);
      EncodeCharDecodes(s[0]);
      assert b[..|head|] == head && b[|head|..] == Utf8Encode(s[1..]);
      Utf8RoundTrip(s[1..]);
      assert [s[0]] + s[1..] == s;
    }
  }

  // ---------------------------------------------------------------------
  // Hex (`buffer.toString('hex')`)

  predicate IsLowerHex(c: char) {
    '0' <= c <= '9' || 'a' <= c <= 'f'
  }

  function HexEncode(b: seq<byte>): (h: string)
    ensures |h| == 2 * |b|
    ensures forall i :: 0 <= i < |h| ==> IsLowerHex(h[i])
  {
    if b == [] then []
    else [HexDigit(b[0] as nat / 16), HexDigit(b[0] as nat % 16)] + HexEncode(b[1..])
  }

  /** Reads two hex digits of either case per byte; None for an odd length
      or a non-hex character. */
  function HexDecode(h: string): Option<seq<byte>>
    decreases |h|
  {
    if h == [] then Some([])
    else if |h| == 1 || !IsHexDigit(h[0]) || !IsHexDigit(h[1]) then None
    else
      match HexDecode(h[2..])
      case None => None
      case Some(rest) => Some([(HexValue(h[0]) * 16 + HexValue(h[1])) as byte] + rest)
  }

  lemma {:induction false} HexRoundTrip(b: seq<byte>)
    ensures HexDecode(HexEncode(b)) == Some(b)
    decreases |b|
  {
    if b != [] {
      var h := HexEncode(b);
      assert h[2..] == HexEncode(b[1..]);
      HexRoundTrip(b[1..]);
      assert [b[0]] + b[1..] == b;
    }
  }

  /** The first 2k hex characters encode the first k bytes. */
  lemma {:induction false} HexEncodePrefix(b: seq<byte>, k: nat)
    requires k <= |b|
    ensures HexEncode(b)[..2 * k] == HexEncode(b[..k])
    decreases k
  {
    if k > 0 {
      HexEncodePrefix(b[1..], k - 1);
      assert b[..k][1..] == b[1..][..k - 1];
    }
  }

  // ---------------------------------------------------------------------
  // The upload

  /** The bytes the hash is made from: the file name followed by the
      decimal clock reading. */
  function HashSource(filename: string, now: int): seq<byte> {
    Utf8Encode(filename + IntToString(now))
  }

  function ContentHash(filename: string, now: int): string {
    HashPrefix + Substring(HexEncode(HashSource(filename, now)), 0, HashHexLength)
  }

  /** The hash is `Qm` and then lower-case hex of at most 44 characters,
      which decode to the first (up to 22) bytes of its source. */
  lemma ContentHashShape(filename: string, now: int)
    ensures var bytes := HashSource(filename, now);
            var h := ContentHash(filename, now);
            && |h| == 2 + Min(44, 2 * |bytes|) && |h| <= 46
            && h[..2] == "Qm"
            && (forall i :: 2 <= i < |h| ==> IsLowerHex(h[i]))
            && HexDecode(h[2..]) == Some(bytes[..Min(22, |bytes|)])
  {
    var bytes := HashSource(filename, now);
    var hex := HexEncode(bytes);
    var k := Min(22, |bytes|);
    var h := ContentHash(filename, now);
    SubstringPrefix(hex, HashHexLength);
    assert Substring(hex, 0, HashHexLength) == hex[..2 * k];
    HexEncodePrefix(bytes, k);
    assert h[2..] == HexEncode(bytes[..k]);
    HexRoundTrip(bytes[..k]);
  }

  /** A file name and clock reading of 22 characters or more always give a
      hash of the full 46 characters. */
  lemma ContentHashFullLength(filename: string, now: int)
    requires |filename + IntToString(now)| >= 22
    ensures |ContentHash(filename, now)| == 46
  {
    ContentHashShape(filename, now);
  }

  datatype UploadData = UploadData(hash: string, size: nat, name: string, gateway: string, pinned: bool)

  datatype UploadError = UploadError(code: string, message: string)

  datatype UploadResponse = UploadResponse(success: bool, data: Option<UploadData>, error: Option<UploadError>)

  /** The response to uploading `fileBuffer` as `filename` at time `now`:
      pinned, under the content hash, with a gateway URL for it. Nothing in
      the `try` block throws, so this is always a success. */
  function UploadDocument(fileBuffer: seq<byte>, filename: string, now: int): (r: UploadResponse)
    ensures r.success && r.error.None? && r.data.Some?
    ensures r.data.value.hash == ContentHash(filename, now)
    ensures r.data.value.size == |fileBuffer|
    ensures r.data.value.name == filename
    ensures r.data.value.gateway == "https://gateway.pinata.cloud/ipfs/" + r.data.value.hash
    ensures r.data.value.pinned
  {
    var hash := ContentHash(filename, now);
    UploadResponse(true, Some(UploadData(hash, |fileBuffer|, filename, GatewayBase + hash, true)), None)
  }

  /** The `catch` of `uploadDocument`. */
  function UploadFailure(e: Thrown): (r: UploadResponse)
    ensures !r.success && r.data.None? && r.error.Some?
    ensures r.error.value.code == "IPFS_UPLOAD_FAILED"
    ensures e.message != "" ==> r.error.value.message == e.message
    ensures e.message == "" ==> r.error.value.message == "The document could not be uploaded to IPFS."
  {
    UploadResponse(false, None, Some(UploadError(UploadErrorCode, MessageOr(e, UploadFailedMessage))))
  }
}
