/** FLV file header and tags: Annex E of the Adobe Flash Video File Format Specification, version 10.1. */
module FlvTags {
  import opened Bytes

  type U32 = v: int | 0 <= v < 0x1_0000_0000

  const TAG_HEADER_LEN: nat := 11
  const TRAILER_LEN: nat := 4
  const MAX_DATA_SIZE: nat := 0xFF_FFFF

  datatype TagType = Audio | Video | ScriptData

  /** `data` begins with whatever sub-header its codec calls for. */
  datatype Tag = Tag(tagType: TagType, timestamp: U32, data: seq<Byte>)

  datatype TagError = BadSignature | UnknownTagType(value: Byte) | TagDataTooLarge(len: nat) | HeaderNotWritten

  function TypeValue(t: TagType): Byte
  {
    match t case Audio => 8 case Video => 9 case ScriptData => 18
  }

  function TypeOf(value: Byte): Option<TagType>
  {
    if value == 8 then Some(Audio)
    else if value == 9 then Some(Video)
    else if value == 18 then Some(ScriptData)
    else None
  }

  // ---- Writing ----

  /** Signature, version, flags, header length, and the size of the tag before the first one: none. */
  function FileHeader(hasAudio: bool, hasVideo: bool): seq<Byte>
  {
    [0x46, 0x4C, 0x56, 1, (if hasAudio then 4 else 0) + (if hasVideo then 1 else 0)] + BigEndian(9, 4) + BigEndian(0, 4)
  }

  /** Type, size, timestamp with its high byte last, stream 0; then the data; then the size of all that. */
  function TagBytes(tag: Tag): (s: seq<Byte>)
    ensures |s| == TAG_HEADER_LEN + |tag.data| + TRAILER_LEN
  {
    [TypeValue(tag.tagType)] + BigEndian(|tag.data|, 3) + BigEndian(tag.timestamp, 3) + [tag.timestamp / 0x100_0000]
    + [0, 0, 0] + tag.data + BigEndian(TAG_HEADER_LEN + |tag.data|, 4)
  }

  function Encoded(tags: seq<Tag>): seq<Byte>
  {
    if tags == [] then [] else Encoded(tags[..|tags| - 1]) + TagBytes(tags[|tags| - 1])
  }

  function Refusal(headerWritten: bool, tag: Tag): Option<TagError>
  {
    if !headerWritten then Some(HeaderNotWritten)
    else if |tag.data| > MAX_DATA_SIZE then Some(TagDataTooLarge(|tag.data|))
    else None
  }

  class TagWriter {
    var headerWritten: bool

    constructor ()
      ensures !headerWritten
    {
      headerWritten := false;
    }

    method WriteHeader(hasAudio: bool, hasVideo: bool, out: seq<Byte>) returns (r: seq<Byte>)
      modifies this
      ensures headerWritten && r == out + FileHeader(hasAudio, hasVideo)
    {
      hide BigEndian;
      r := out + [0x46, 0x4C, 0x56];
      r := r + [1];
      var flags := (if hasAudio then 4 else 0) + (if hasVideo then 1 else 0);
      r := r + [flags];
      r := r + BigEndian(9, 4);
      r := r + BigEndian(0, 4);
      headerWritten := true;
    }

    method WriteTag(tag: Tag, out: seq<Byte>) returns (r: seq<Byte>, error: Option<TagError>)
      ensures error == Refusal(headerWritten, tag)
      ensures r == if error.None? then out + TagBytes(tag) else out
    {
      hide BigEndian;
      if !headerWritten {
        return out, Some(HeaderNotWritten);
      }
      if |tag.data| > MAX_DATA_SIZE {
        return out, Some(TagDataTooLarge(|tag.data|));
      }
      r := out + [TypeValue(tag.tagType)];
      r := r + BigEndian(|tag.data|, 3);
      r := r + BigEndian(tag.timestamp, 3);
      r := r + [tag.timestamp / 0x100_0000];
      r := r + [0, 0, 0];
      r := r + tag.data;
      r := r + BigEndian(TAG_HEADER_LEN + |tag.data|, 4);
      error := None;
    }
  }

  // ---- Reading ----

  datatype Reader = Reader(buf: seq<Byte>, headerParsed: bool, hasAudio: bool, hasVideo: bool)

  const NEW_READER := Reader([], false, false, false)

  function HeaderLength(buf: seq<Byte>): nat
    requires |buf| >= 9
  {
    FromBigEndian(buf[5..9]) + TRAILER_LEN
  }

  function ParseHeader(r: Reader): (Reader, Result<bool, TagError>)
  {
    if |r.buf| < 9 then (r, Ok(false))
    else if r.buf[..3] != [0x46, 0x4C, 0x56] then (r, Err(BadSignature))
    else if |r.buf| < HeaderLength(r.buf) then (r, Ok(false))
    else (Reader(r.buf[HeaderLength(r.buf)..], true, r.buf[4] / 4 % 2 == 1, r.buf[4] % 2 == 1), Ok(true))
  }

  function TagLength(buf: seq<Byte>): (n: nat)
    requires |buf| >= TAG_HEADER_LEN
  {
    TAG_HEADER_LEN + FromBigEndian(buf[1..4]) + TRAILER_LEN
  }

  /** The high byte of the timestamp follows the low three. */
  function TagTime(buf: seq<Byte>): (t: U32)
    requires |buf| >= TAG_HEADER_LEN
  {
    FromBigEndianBound([buf[7]] + buf[4..7]);
    assert Pow256(4) == 0x1_0000_0000;
    FromBigEndian([buf[7]] + buf[4..7])
  }

  function ParseTag(r: Reader): (Reader, Result<Option<Tag>, TagError>)
  {
    if |r.buf| < TAG_HEADER_LEN then (r, Ok(None))
    else if TypeOf(r.buf[0]).None? then (r, Err(UnknownTagType(r.buf[0])))
    else
      var total := TagLength(r.buf);
      if |r.buf| < total then (r, Ok(None))
      else (r.(buf := r.buf[total..]),
            Ok(Some(Tag(TypeOf(r.buf[0]).value, TagTime(r.buf), r.buf[TAG_HEADER_LEN..total - TRAILER_LEN]))))
  }

  /** The file header first, if it is still due, then one tag. */
  function PollTag(r: Reader): (Reader, Result<Option<Tag>, TagError>)
  {
    if r.headerParsed then ParseTag(r)
    else match ParseHeader(r).1
      case Err(e) => (r, Err(e))
      case Ok(parsed) => if parsed then ParseTag(ParseHeader(r).0) else (r, Ok(None))
  }

  class TagReader {
    var buf: seq<Byte>
    var headerParsed: bool
    var audioDeclared: bool
    var videoDeclared: bool

    ghost function View(): Reader
      reads this
    {
      Reader(buf, headerParsed, audioDeclared, videoDeclared)
    }

    constructor ()
      ensures View() == NEW_READER
    {
      buf, headerParsed, audioDeclared, videoDeclared := [], false, false, false;
    }

    method PushBytes(data: seq<Byte>)
      modifies this
      ensures View() == old(View()).(buf := old(buf) + data)
    {
      buf := buf + data;
    }

    method PollOneTag() returns (r: Result<Option<Tag>, TagError>)
      modifies this
      ensures (View(), r) == PollTag(old(View()))
    {
      hide ParseHeader, ParseTag;
      if !headerParsed {
        var parsed := ReadHeader();
        if parsed.Err? {
          return Err(parsed.error);
        }
        if !parsed.value {
          return Ok(None);
        }
      }
      r := ReadTag();
    }

    method ReadHeader() returns (r: Result<bool, TagError>)
      modifies this
      ensures (View(), r) == ParseHeader(old(View()))
      ensures r != Ok(true) ==> View() == old(View())
    {
      if |buf| < 9 {
        return Ok(false);
      }
      if buf[0..3] != [0x46, 0x4C, 0x56] {
        return Err(BadSignature);
      }
      var flags := buf[4];
      FourBytes(buf[5..9]);
      var dataOffset := Word(buf[5], buf[6], buf[7], buf[8]);
      var totalHeader := dataOffset + TRAILER_LEN;
      if |buf| < totalHeader {
        return Ok(false);
      }
      videoDeclared := flags % 2 != 0;
      audioDeclared := flags / 4 % 2 != 0;
      headerParsed := true;
      buf := buf[totalHeader..];
      return Ok(true);
    }

    method ReadTag() returns (r: Result<Option<Tag>, TagError>)
      modifies this
      ensures (View(), r) == ParseTag(old(View()))
    {
      hide FromBigEndian, TagTime, Word;
      if |buf| < TAG_HEADER_LEN {
        return Ok(None);
      }
      var tagType := TypeOf(buf[0]);
      if tagType.None? {
        return Err(UnknownTagType(buf[0]));
      }
      var dataSize := Word(0, buf[1], buf[2], buf[3]);
      var low := Word(0, buf[4], buf[5], buf[6]);
      var timestamp := Word(buf[7], 0, 0, 0) + low;
      FieldsRead(buf);
      var total := TAG_HEADER_LEN + dataSize + TRAILER_LEN;
      if |buf| < total {
        return Ok(None);
      }
      var data := buf[TAG_HEADER_LEN..TAG_HEADER_LEN + dataSize];
      buf := buf[total..];
      return Ok(Some(Tag(tagType.value, timestamp, data)));
    }
  }

  function Word(a: nat, b: nat, c: nat, d: nat): nat
  {
    a * 0x100_0000 + b * 0x1_0000 + c * 0x100 + d
  }

  lemma ThreeBytes(s: seq<Byte>)
    requires |s| == 3
    ensures FromBigEndian(s) == Word(0, s[0], s[1], s[2])
  {
    assert s[..2][..1][..0] == [];
    assert FromBigEndian(s[..2][..1]) == s[0];
  }

  lemma FourBytes(s: seq<Byte>)
    requires |s| == 4
    ensures FromBigEndian(s) == Word(s[0], s[1], s[2], s[3])
  {
    ThreeBytes(s[..3]);
  }

  lemma FieldsRead(buf: seq<Byte>)
    requires |buf| >= TAG_HEADER_LEN
    ensures FromBigEndian(buf[1..4]) == Word(0, buf[1], buf[2], buf[3])
    ensures TagTime(buf) == Word(buf[7], 0, 0, 0) + Word(0, buf[4], buf[5], buf[6])
  {
    hide FromBigEndian;
    ThreeBytes(buf[1..4]);
    FourBytes([buf[7]] + buf[4..7]);
  }

  // ---- The reader undoes the writer, and settles each tag once for all ----

  function Fed(r: Reader, more: seq<Byte>): Reader
  {
    r.(buf := r.buf + more)
  }

  /** A header once read reads the same when more bytes follow. */
  lemma HeaderStays(r: Reader, more: seq<Byte>)
    ensures var (after, found) := ParseHeader(r);
            found != Ok(false) ==> ParseHeader(Fed(r, more)) == (Fed(after, more), found)
  {
    hide FromBigEndian;
    var fed := r.buf + more;
    if |r.buf| >= 9 {
      assert fed[..3] == r.buf[..3] && fed[5..9] == r.buf[5..9];
      if |r.buf| >= HeaderLength(r.buf) {
        assert fed[HeaderLength(r.buf)..] == r.buf[HeaderLength(r.buf)..] + more;
      }
    }
  }

  /** So does a tag. */
  lemma TagStays(r: Reader, more: seq<Byte>)
    ensures var (after, found) := ParseTag(r);
            found != Ok(None) ==> ParseTag(Fed(r, more)) == (Fed(after, more), found)
  {
    hide FromBigEndian;
    var fed := r.buf + more;
    if |r.buf| >= TAG_HEADER_LEN {
      assert fed[1..4] == r.buf[1..4] && fed[4..7] == r.buf[4..7];
      var total := TagLength(r.buf);
      if |r.buf| >= total {
        assert fed[total..] == r.buf[total..] + more;
        assert fed[TAG_HEADER_LEN..total - TRAILER_LEN] == r.buf[TAG_HEADER_LEN..total - TRAILER_LEN];
      }
    }
  }

  lemma HeaderReads(hasAudio: bool, hasVideo: bool, tail: seq<Byte>)
    ensures ParseHeader(Reader(FileHeader(hasAudio, hasVideo) + tail, false, false, false))
            == (Reader(tail, true, hasAudio, hasVideo), Ok(true))
  {
    hide BigEndian, FromBigEndian;
    var h := FileHeader(hasAudio, hasVideo);
    var s := h + tail;
    assert s[5..9] == BigEndian(9, 4);
    assert Pow256(4) == 0x1_0000_0000;
    BigEndianRoundTrip(9, 4);
    assert s[..3] == [0x46, 0x4C, 0x56];
    assert s[13..] == tail;
  }

  lemma TagReads(r: Reader, tag: Tag, tail: seq<Byte>)
    requires |tag.data| <= MAX_DATA_SIZE && r.buf == TagBytes(tag) + tail
    ensures ParseTag(r) == (r.(buf := tail), Ok(Some(tag)))
  {
    hide BigEndian, FromBigEndian, TagTime;
    var n := |tag.data|;
    var s := r.buf;
    assert s[0] == TypeValue(tag.tagType);
    assert s[1..4] == BigEndian(n, 3);
    assert Pow256(3) == 0x100_0000;
    BigEndianRoundTrip(n, 3);
    assert s[TAG_HEADER_LEN..TAG_HEADER_LEN + n] == tag.data;
    assert s[TAG_HEADER_LEN + n + TRAILER_LEN..] == tail;
    TimeReads(tag, s);
  }

  lemma TimeReads(tag: Tag, s: seq<Byte>)
    requires |s| >= TAG_HEADER_LEN && s[4..7] == BigEndian(tag.timestamp, 3) && s[7] == tag.timestamp / 0x100_0000
    ensures TagTime(s) == tag.timestamp
  {
    hide BigEndian, FromBigEndian;
    var t := tag.timestamp;
    BigEndianWraps(t, 3);
    assert Pow256(3) == 0x100_0000;
    FourBytes([s[7]] + s[4..7]);
    ThreeBytes(s[4..7]);
  }
}
