/**
 * The 8-byte record every viewer receives when its WebSocket opens: the
 * `struct` format `'>4sHH'`, i.e. a 4-byte tag followed by two big-endian
 * unsigned 16-bit integers (width, height), with no padding.
 */
module StreamHeader {
  import opened Basics

  /** `b'jsmp'` */
  const Magic: seq<byte> := [0x6a, 0x73, 0x6d, 0x70]
  const TagSize: nat := 4
  const HeaderSize: nat := 8

  /** The configured capture geometry. */
  const Width: int := 640
  const Height: int := 480

  /** Why `struct` raises `struct.error`. */
  datatype StructError =
    | FieldOutOfRange   // an `H` field outside 0..65535
    | WrongBufferSize   // unpacking a buffer whose length is not the format's size

  datatype Header = Header(tag: seq<byte>, width: int, height: int)

  predicate IsU16(v: int) {
    0 <= v < 0x1_0000
  }

  /** The `>H` field: most significant byte first. */
  function EncodeU16(v: int): (b: seq<byte>)
    requires IsU16(v)
    ensures |b| == 2
    ensures b[0] as int * 256 + b[1] as int == v
  {
    [v / 256, v % 256]
  }

  function DecodeU16(b: seq<byte>): (v: int)
    requires |b| == 2
    ensures IsU16(v)
    ensures EncodeU16(v) == b
  {
    b[0] as int * 256 + b[1] as int
  }

  /** The `4s` field: a shorter tag is padded with zero bytes, a longer one truncated. */
  function TagField(tag: seq<byte>): (f: seq<byte>)
    ensures |f| == TagSize
    ensures |tag| >= TagSize ==> f == tag[..TagSize]
    ensures |tag| < TagSize ==> f[..|tag|] == tag
    ensures forall i :: |tag| <= i < TagSize ==> f[i] == 0
  {
    if |tag| >= TagSize then tag[..TagSize]
    else tag + seq(TagSize - |tag|, _ => 0)
  }

  /** `Struct('>4sHH').pack(tag, width, height)` */
  function Pack(h: Header): (r: Result<seq<byte>, StructError>)
    ensures r.Success? <==> IsU16(h.width) && IsU16(h.height)
    ensures r.Failure? ==> r.error == FieldOutOfRange
    ensures r.Success? ==>
      && |r.value| == HeaderSize
      && r.value[..TagSize] == TagField(h.tag)
      && r.value[4] as int * 256 + r.value[5] as int == h.width
      && r.value[6] as int * 256 + r.value[7] as int == h.height
  {
    if !IsU16(h.width) || !IsU16(h.height) then Failure(FieldOutOfRange)
    else Success(TagField(h.tag) + EncodeU16(h.width) + EncodeU16(h.height))
  }

  /** `Struct('>4sHH').unpack(buffer)` */
  function Unpack(b: seq<byte>): (r: Result<Header, StructError>)
    ensures r.Success? <==> |b| == HeaderSize
    ensures r.Failure? ==> r.error == WrongBufferSize
    ensures r.Success? ==>
      && |r.value.tag| == TagSize
      && IsU16(r.value.width) && IsU16(r.value.height)
  {
    if |b| != HeaderSize then Failure(WrongBufferSize)
    else Success(Header(b[..4], DecodeU16(b[4..6]), DecodeU16(b[6..8])))
  }

  /** Packing a well-formed header and unpacking the bytes gives the header back. */
  lemma UnpackPack(h: Header)
    requires |h.tag| == TagSize && IsU16(h.width) && IsU16(h.height)
    ensures Pack(h).Success?
    ensures Unpack(Pack(h).value) == Success(h)
  {
    var b := Pack(h).value;
    assert b[..4] == h.tag;
    assert b[4..6] == EncodeU16(h.width);
    assert b[6..8] == EncodeU16(h.height);
  }

  /** Every 8-byte buffer is the packing of what it unpacks to. */
  lemma PackUnpack(b: seq<byte>)
    requires |b| == HeaderSize
    ensures Unpack(b).Success?
    ensures Pack(Unpack(b).value) == Success(b)
  {
    var h := Unpack(b).value;
    assert EncodeU16(h.width) == b[4..6];
    assert EncodeU16(h.height) == b[6..8];
    assert TagField(h.tag) == b[..4];
    assert b == b[..4] + b[4..6] + b[6..8];
    assert Pack(h).value == TagField(h.tag) + EncodeU16(h.width) + EncodeU16(h.height);
  }

  /** What `StreamingWebSocket.opened` sends: the tag, then 640 and 480 big-endian. */
  function Opened(): (b: seq<byte>)
    ensures b == [0x6a, 0x73, 0x6d, 0x70, 0x02, 0x80, 0x01, 0xe0]
    ensures Unpack(b) == Success(Header(Magic, Width, Height))
  {
    var r := Pack(Header(Magic, Width, Height));
    UnpackPack(Header(Magic, Width, Height));
    r.value
  }
}
