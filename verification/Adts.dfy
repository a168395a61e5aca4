/** ADTS framing of AAC: section 6.2 of ISO/IEC 13818-7. */
module Adts {
  import opened Bytes

  datatype Profile = MainProfile | LcProfile | SsrProfile | LtpProfile

  datatype AdtsConfig = AdtsConfig(profile: Profile, sampleRate: nat, channels: Byte)

  datatype AdtsError =
    | UnsupportedSampleRate(rate: nat)
    | FrameTooLarge(len: nat)
    | BadSync
    | UnsupportedSamplingFrequencyIndex(index: nat)

  const HEADER_LEN: nat := 7
  const HEADER_LEN_WITH_CRC: nat := 9
  const MAX_FRAME_LEN: nat := 0x1FFF
  const BUFFER_FULLNESS_UNKNOWN: nat := 0x7FF

  // ---- Tables ----

  function ProfileBits(p: Profile): (b: nat)
    ensures b < 4
  {
    match p case MainProfile => 0 case LcProfile => 1 case SsrProfile => 2 case LtpProfile => 3
  }

  function ProfileOf(bits: nat): Profile
  {
    var b := bits % 4;
    if b == 0 then MainProfile else if b == 2 then SsrProfile else if b == 3 then LtpProfile else LcProfile
  }

  const SAMPLE_RATES: seq<nat> :=
    [96_000, 88_200, 64_000, 48_000, 44_100, 32_000, 24_000, 22_050, 16_000, 12_000, 11_025, 8_000, 7_350]

  function RateAt(index: nat): Option<nat>
  {
    if index < |SAMPLE_RATES| then Some(SAMPLE_RATES[index]) else None
  }

  function RatePosition(rate: nat, from: nat): (r: Option<nat>)
    requires from <= |SAMPLE_RATES|
    ensures r.Some? ==> r.value < |SAMPLE_RATES| && SAMPLE_RATES[r.value] == rate
    ensures r.None? ==> forall i | from <= i < |SAMPLE_RATES| :: SAMPLE_RATES[i] != rate
    decreases |SAMPLE_RATES| - from
  {
    if from == |SAMPLE_RATES| then None
    else if SAMPLE_RATES[from] == rate then Some(from)
    else RatePosition(rate, from + 1)
  }

  function RateIndex(rate: nat): (r: Option<nat>)
    ensures r.Some? ==> r.value < |SAMPLE_RATES|
  {
    RatePosition(rate, 0)
  }

  /** The rate table and its inverse undo each other, and so do the profile bits and theirs. */
  lemma TablesInvert(i: nat, rate: nat, p: Profile, bits: nat)
    ensures RateIndex(rate) == Some(i) <==> RateAt(i) == Some(rate)
    ensures ProfileOf(ProfileBits(p)) == p
    ensures bits < 4 ==> ProfileBits(ProfileOf(bits)) == bits
  {
    hide RatePosition;
    var found := RateIndex(rate);
    if i < |SAMPLE_RATES| && found.Some? && SAMPLE_RATES[i] == rate {
      RatesDiffer(i, found.value);
    }
  }

  lemma RatesDiffer(i: nat, j: nat)
    requires i < |SAMPLE_RATES| && j < |SAMPLE_RATES| && SAMPLE_RATES[i] == SAMPLE_RATES[j]
    ensures i == j
  {
    RatesFall(i, j);
    RatesFall(j, i);
  }

  lemma RatesFall(i: nat, j: nat)
    ensures i < j < |SAMPLE_RATES| ==> SAMPLE_RATES[i] > SAMPLE_RATES[j]
  {
  }

  // ---- The header as the standard lays it out ----

  datatype Field = Field(value: nat, width: nat)

  /** Fields packed most significant first. */
  function Pack(fields: seq<Field>): nat
  {
    if fields == [] then 0
    else
      var last := fields[|fields| - 1];
      Pack(fields[..|fields| - 1]) * Pow2(last.width) + last.value
  }

  /** The fixed and the variable header, for a frame of `frameLen` bytes without CRC and with one raw data block. */
  function HeaderFields(profile: nat, sfi: nat, channels: nat, frameLen: nat): seq<Field>
  {
    [Field(0xFFF, 12), Field(0, 1), Field(0, 2), Field(1, 1), Field(profile, 2), Field(sfi, 4), Field(0, 1),
     Field(channels, 3), Field(0, 4), Field(frameLen, 13), Field(BUFFER_FULLNESS_UNKNOWN, 11), Field(0, 2)]
  }

  function Header(config: AdtsConfig, sfi: nat, frameLen: nat): (s: seq<Byte>)
    ensures |s| == HEADER_LEN
  {
    BigEndian(Pack(HeaderFields(ProfileBits(config.profile), sfi, config.channels % 8, frameLen)), HEADER_LEN)
  }

  function Frame(config: AdtsConfig, sfi: nat, payload: seq<Byte>): seq<Byte>
  {
    Header(config, sfi, HEADER_LEN + |payload|) + payload
  }

  lemma PackedHeader(profile: nat, sfi: nat, channels: nat, frameLen: nat)
    ensures Pack(HeaderFields(profile, sfi, channels, frameLen))
            == 0xFFF1 * 0x100_0000_0000 + profile * 0x40_0000_0000 + sfi * 0x4_0000_0000 + channels * 0x4000_0000
               + frameLen * 0x2000 + BUFFER_FULLNESS_UNKNOWN * 4
  {
    hide Pack, Pow2;
    var f := HeaderFields(profile, sfi, channels, frameLen);
    Widths();
    assert f[..0] == [];
    assert Pack([]) == 0 by { NoFields(); }
    FirstFields(f, 1); FirstFields(f, 2); FirstFields(f, 3); FirstFields(f, 4); FirstFields(f, 5); FirstFields(f, 6);
    FirstFields(f, 7); FirstFields(f, 8); FirstFields(f, 9); FirstFields(f, 10); FirstFields(f, 11); FirstFields(f, 12);
    assert f[..12] == f;
  }

  lemma NoFields()
    ensures Pack([]) == 0
  {
  }

  lemma FirstFields(f: seq<Field>, n: nat)
    requires 1 <= n <= |f|
    ensures Pack(f[..n]) == Pack(f[..n - 1]) * Pow2(f[n - 1].width) + f[n - 1].value
  {
    assert f[..n][..n - 1] == f[..n - 1];
  }

  lemma Widths()
    ensures Pow2(1) == 2 && Pow2(2) == 4 && Pow2(3) == 8 && Pow2(4) == 16 && Pow2(11) == 2048 && Pow2(12) == 4096
    ensures Pow2(13) == 8192
  {
    assert Pow2(5) == 32 && Pow2(8) == 256 && Pow2(10) == 1024;
  }

  /** The header byte by byte, as shifts and masks make it. */
  function PackedBytes(profile: nat, sfi: nat, channels: nat, frameLen: nat): (s: seq<Byte>)
    requires profile < 4 && sfi < 16 && channels < 8 && frameLen <= MAX_FRAME_LEN
  {
    [0xFF, 0xF1, profile * 64 + sfi * 4 + channels / 4, channels % 4 * 64 + frameLen / 0x800 % 4, frameLen / 8 % 0x100,
     frameLen % 8 * 32 + BUFFER_FULLNESS_UNKNOWN / 64 % 32, BUFFER_FULLNESS_UNKNOWN % 64 * 4]
  }

  lemma SevenBytes(s: seq<Byte>)
    requires |s| == 7
    ensures FromBigEndian(s)
            == s[0] as int * 0x1_0000_0000_0000 + s[1] as int * 0x100_0000_0000 + s[2] as int * 0x1_0000_0000
                                + s[3] as int * 0x100_0000 + s[4] as int * 0x1_0000 + s[5] as int * 0x100 + s[6] as int
  {
    hide FromBigEndian;
    OneByte(s, 1); OneByte(s, 2); OneByte(s, 3); OneByte(s, 4); OneByte(s, 5); OneByte(s, 6); OneByte(s, 7);
    NoBytes();
    assert s[..0] == [] && s[..7] == s;
  }

  lemma NoBytes()
    ensures FromBigEndian([]) == 0
  {
  }

  lemma OneByte(s: seq<Byte>, n: nat)
    requires 1 <= n <= |s|
    ensures FromBigEndian(s[..n]) == FromBigEndian(s[..n - 1]) * 256 + s[n - 1]
  {
    assert s[..n][..n - 1] == s[..n - 1];
  }

  lemma BitsAddUp(channels: nat, frameLen: nat)
    requires channels < 8 && frameLen <= MAX_FRAME_LEN
    ensures channels == channels / 4 * 4 + channels % 4
    ensures frameLen == frameLen / 0x800 % 4 * 0x800 + frameLen / 8 % 0x100 * 8 + frameLen % 8
  {
  }

  lemma BytesSpell(profile: nat, sfi: nat, channels: nat, frameLen: nat)
    requires profile < 4 && sfi < 16 && channels < 8 && frameLen <= MAX_FRAME_LEN
    ensures |PackedBytes(profile, sfi, channels, frameLen)| == 7
    ensures FromBigEndian(PackedBytes(profile, sfi, channels, frameLen))
            == Pack(HeaderFields(profile, sfi, channels, frameLen))
  {
    hide Pack, HeaderFields, FromBigEndian;
    PackedHeader(profile, sfi, channels, frameLen);
    SevenBytes(PackedBytes(profile, sfi, channels, frameLen));
    BitsAddUp(channels, frameLen);
    SumsAgree(profile, sfi, channels / 4, channels % 4, frameLen / 0x800 % 4, frameLen / 8 % 0x100, frameLen % 8);
  }

  /** The bytes and the fields weigh the same. */
  lemma SumsAgree(profile: int, sfi: int, c1: int, c0: int, high: int, mid: int, low: int)
    ensures 0xFF * 0x1_0000_0000_0000 + 0xF1 * 0x100_0000_0000 + (profile * 64 + sfi * 4 + c1) * 0x1_0000_0000
            + (c0 * 64 + high) * 0x100_0000 + mid * 0x1_0000 + (low * 32 + 31) * 0x100 + 252
            == 0xFFF1 * 0x100_0000_0000 + profile * 0x40_0000_0000 + sfi * 0x4_0000_0000 + (c1 * 4 + c0) * 0x4000_0000
               + (high * 0x800 + mid * 8 + low) * 0x2000 + BUFFER_FULLNESS_UNKNOWN * 4
  {
  }

  /** Shifting and masking lays the fields out as the standard does. */
  lemma HeaderBytes(profile: nat, sfi: nat, channels: nat, frameLen: nat)
    requires profile < 4 && sfi < 16 && channels < 8 && frameLen <= MAX_FRAME_LEN
    ensures BigEndian(Pack(HeaderFields(profile, sfi, channels, frameLen)), HEADER_LEN)
            == PackedBytes(profile, sfi, channels, frameLen)
  {
    hide Pack, HeaderFields, FromBigEndian, BigEndian, Pow256, PackedBytes;
    var s := PackedBytes(profile, sfi, channels, frameLen);
    BytesSpell(profile, sfi, channels, frameLen);
    FromBigEndianBound(s);
    BigEndianRoundTrip(FromBigEndian(s), 7);
    SameNumberSameBytes(BigEndian(FromBigEndian(s), 7), s);
  }

  // ---- Writing ----

  class AdtsMuxer {
    const config: AdtsConfig
    const sfi: nat

    constructor (config: AdtsConfig, sfi: nat)
      ensures this.config == config && this.sfi == sfi
    {
      this.config, this.sfi := config, sfi;
    }

    ghost predicate Valid()
    {
      RateIndex(config.sampleRate) == Some(sfi)
    }

    method WriteFrame(raw: seq<Byte>, out: seq<Byte>) returns (r: seq<Byte>, error: Option<AdtsError>)
      requires Valid()
      ensures error == Oversize(raw)
      ensures r == if error.None? then out + Frame(config, sfi, raw) else out
    {
      hide Header;
      var frameLen := HEADER_LEN + |raw|;
      if frameLen > MAX_FRAME_LEN {
        return out, Some(FrameTooLarge(frameLen));
      }
      var profile := ProfileBits(config.profile);
      var channels: nat := config.channels % 8;
      var fullness := BUFFER_FULLNESS_UNKNOWN;
      r := out + [0xFF];
      r := r + [0xF1];
      r := r + [profile * 64 + sfi * 4 + channels / 4];
      r := r + [channels % 4 * 64 + frameLen / 0x800 % 4];
      r := r + [frameLen / 8 % 0x100];
      r := r + [frameLen % 8 * 32 + fullness / 64 % 32];
      r := r + [fullness % 64 * 4];
      assert r == out + PackedBytes(profile, sfi, channels, frameLen);
      HeaderIsPacked(config, sfi, frameLen);
      r := r + raw;
      error := None;
    }
  }

  lemma HeaderIsPacked(config: AdtsConfig, sfi: nat, frameLen: nat)
    requires sfi < 16 && frameLen <= MAX_FRAME_LEN
    ensures Header(config, sfi, frameLen)
            == PackedBytes(ProfileBits(config.profile), sfi, config.channels % 8, frameLen)
  {
    HeaderBytes(ProfileBits(config.profile), sfi, config.channels % 8, frameLen);
  }

  function Oversize(raw: seq<Byte>): Option<AdtsError>
  {
    if HEADER_LEN + |raw| > MAX_FRAME_LEN then Some(FrameTooLarge(HEADER_LEN + |raw|)) else None
  }

  method NewMuxer(config: AdtsConfig) returns (r: Result<AdtsMuxer, AdtsError>)
    ensures r.Ok? <==> RateIndex(config.sampleRate).Some?
    ensures r.Ok? ==> fresh(r.value) && r.value.Valid() && r.value.config == config
    ensures r.Err? ==> r.error == UnsupportedSampleRate(config.sampleRate)
  {
    var i := 0;
    while i < |SAMPLE_RATES|
      invariant 0 <= i <= |SAMPLE_RATES|
      invariant RateIndex(config.sampleRate) == RatePosition(config.sampleRate, i)
    {
      if SAMPLE_RATES[i] == config.sampleRate {
        var m := new AdtsMuxer(config, i);
        return Ok(m);
      }
      i := i + 1;
    }
    return Err(UnsupportedSampleRate(config.sampleRate));
  }

  // ---- Reading ----

  /** What is buffered, the newest frame's header fields, and every payload polled so far. */
  datatype Reader = Reader(buf: seq<Byte>, config: Option<AdtsConfig>, payloads: seq<seq<Byte>>)

  const NEW_READER := Reader([], None, [])

  datatype Poll = Waiting | Failed(error: AdtsError) | Whole(config: AdtsConfig, headerLen: nat, frameLen: nat)

  predicate InSync(buf: seq<Byte>)
    requires |buf| >= HEADER_LEN
  {
    buf[0] == 0xFF && buf[1] / 16 == 0xF
  }

  function HeaderLen(buf: seq<Byte>): nat
    requires |buf| >= HEADER_LEN
  {
    if buf[1] % 2 != 0 then HEADER_LEN else HEADER_LEN_WITH_CRC
  }

  function FrameLen(buf: seq<Byte>): nat
    requires |buf| >= HEADER_LEN
  {
    var high: nat, mid: nat, low: nat := buf[3] % 4, buf[4], buf[5] / 32;
    high * 0x800 + mid * 8 + low
  }

  function ConfigAt(buf: seq<Byte>): Result<AdtsConfig, AdtsError>
    requires |buf| >= HEADER_LEN
  {
    var profile: nat, sfi: nat := buf[2] / 64, buf[2] / 4 % 16;
    match RateAt(sfi)
    case None => Err(UnsupportedSamplingFrequencyIndex(sfi))
    case Some(rate) => Ok(AdtsConfig(ProfileOf(profile), rate, buf[2] % 2 * 4 + buf[3] / 64))
  }

  /** What the front of the buffer holds. */
  function Look(buf: seq<Byte>): (p: Poll)
    ensures p.Whole? ==> HEADER_LEN <= p.headerLen <= p.frameLen <= |buf|
  {
    if |buf| < HEADER_LEN then Waiting
    else if !InSync(buf) then Failed(BadSync)
    else if |buf| < HeaderLen(buf) || |buf| < FrameLen(buf) then Waiting
    else if FrameLen(buf) < HeaderLen(buf) then Failed(BadSync)
    else match ConfigAt(buf)
      case Err(e) => Failed(e)
      case Ok(config) => Whole(config, HeaderLen(buf), FrameLen(buf))
  }

  function Take(r: Reader, p: Poll): Reader
    requires p.Whole? && p.headerLen <= p.frameLen <= |r.buf|
  {
    Reader(r.buf[p.frameLen..], Some(p.config), r.payloads + [r.buf[p.headerLen..p.frameLen]])
  }

  /** Every whole frame read, up to the first that is short or bad. */
  function Run(r: Reader): Reader
    decreases |r.buf|
  {
    if Look(r.buf).Whole? then Run(Take(r, Look(r.buf))) else r
  }

  function Feed(r: Reader, more: seq<Byte>): Reader
  {
    r.(buf := r.buf + more)
  }

  function PushAll(chunks: seq<seq<Byte>>): Reader
  {
    if chunks == [] then NEW_READER else Run(Feed(PushAll(chunks[..|chunks| - 1]), chunks[|chunks| - 1]))
  }

  class AdtsDemuxer {
    var buf: seq<Byte>
    var config: Option<AdtsConfig>
    ghost var polled: seq<seq<Byte>>

    ghost function View(): Reader
      reads this
    {
      Reader(buf, config, polled)
    }

    constructor ()
      ensures View() == NEW_READER
    {
      buf, config, polled := [], None, [];
    }

    method PushBytes(data: seq<Byte>)
      modifies this
      ensures View() == Feed(old(View()), data)
    {
      buf := buf + data;
    }

    method PollFrame() returns (r: Result<Option<seq<Byte>>, AdtsError>)
      modifies this
      ensures match Look(old(buf))
              case Waiting => r == Ok(None) && View() == old(View())
              case Failed(error) => r == Err(error) && View() == old(View())
              case Whole(_, headerLen, frameLen) =>
                r == Ok(Some(old(buf)[headerLen..frameLen])) && View() == Take(old(View()), Look(old(buf)))
    {
      if |buf| < HEADER_LEN {
        return Ok(None);
      }
      if buf[0] != 0xFF || buf[1] / 16 != 0xF {
        return Err(BadSync);
      }
      var protectionAbsent := buf[1] % 2 != 0;
      var headerLen := if protectionAbsent then HEADER_LEN else HEADER_LEN_WITH_CRC;
      if |buf| < headerLen {
        return Ok(None);
      }
      var profile: nat, sfi: nat := buf[2] / 64, buf[2] / 4 % 16;
      var channels := buf[2] % 2 * 4 + buf[3] / 64;
      var frameLen := FrameLen(buf);
      if |buf| < frameLen {
        return Ok(None);
      }
      if frameLen < headerLen {
        return Err(BadSync);
      }
      var rate := RateAt(sfi);
      if rate.None? {
        return Err(UnsupportedSamplingFrequencyIndex(sfi));
      }
      config := Some(AdtsConfig(ProfileOf(profile), rate.value, channels));
      var payload := buf[headerLen..frameLen];
      buf := buf[frameLen..];
      polled := polled + [payload];
      return Ok(Some(payload));
    }
  }

  /** Feeds a stream cut into chunks, polling after each until nothing more comes. */
  method DemuxChunks(chunks: seq<seq<Byte>>)
    returns (payloads: seq<seq<Byte>>, config: Option<AdtsConfig>, left: seq<Byte>)
    ensures Reader(left, config, payloads) == PushAll(chunks)
  {
    hide Look, Take;
    var d := new AdtsDemuxer();
    payloads := [];
    for i := 0 to |chunks|
      invariant fresh(d) && d.View() == PushAll(chunks[..i]) && payloads == d.polled
    {
      assert chunks[..i + 1][..i] == chunks[..i];
      d.PushBytes(chunks[i]);
      while true
        invariant Run(d.View()) == PushAll(chunks[..i + 1]) && payloads == d.polled
        decreases |d.buf|
      {
        ghost var before := d.View();
        var payload := d.PollFrame();
        Taken(before);
        if payload.Err? || payload.value.None? {
          break;
        }
        payloads := payloads + [payload.value.value];
      }
    }
    assert chunks[..|chunks|] == chunks;
    return payloads, d.config, d.buf;
  }

  lemma Taken(r: Reader)
    ensures var p := Look(r.buf);
            p.Whole? ==>
              |Take(r, p).buf| < |r.buf| && Take(r, p).payloads == r.payloads + [r.buf[p.headerLen..p.frameLen]]
  {
  }

  // ---- Any stream, cut in any way ----

  lemma LookFeeds(buf: seq<Byte>, more: seq<Byte>)
    requires Look(buf) != Waiting
    ensures Look(buf + more) == Look(buf)
  {
  }

  lemma {:induction false} RunFeeds(r: Reader, more: seq<Byte>)
    ensures Run(Feed(r, more)) == Run(Feed(Run(r), more))
    decreases |r.buf|
  {
    hide Look;
    var p := Look(r.buf);
    if p.Whole? {
      LookFeeds(r.buf, more);
      assert Take(Feed(r, more), p) == Feed(Take(r, p), more) by {
        assert (r.buf + more)[p.frameLen..] == r.buf[p.frameLen..] + more;
        assert (r.buf + more)[p.headerLen..p.frameLen] == r.buf[p.headerLen..p.frameLen];
      }
      RunFeeds(Take(r, p), more);
    }
  }

  /** However any bytes at all are cut into chunks, the same payloads, config and leftovers result. */
  lemma {:induction false} AdtsChunking(chunks: seq<seq<Byte>>)
    ensures PushAll(chunks) == Run(Feed(NEW_READER, Concat(chunks)))
  {
    hide Run;
    if chunks == [] {
      NothingToRead(NEW_READER);
    } else {
      var front, last := chunks[..|chunks| - 1], chunks[|chunks| - 1];
      AdtsChunking(front);
      RunFeeds(Feed(NEW_READER, Concat(front)), last);
      assert Feed(Feed(NEW_READER, Concat(front)), last) == Feed(NEW_READER, Concat(chunks));
    }
  }

  lemma NothingToRead(r: Reader)
    requires r.buf == []
    ensures Run(Feed(r, [])) == r && Run(r) == r
  {
    assert Feed(r, []) == r;
  }

  // ---- The round trip ----

  /** What a muxer of this configuration has written after `raws`: a frame for each that is not too large. */
  function Written(config: AdtsConfig, sfi: nat, raws: seq<seq<Byte>>): seq<Byte>
  {
    if raws == [] then []
    else
      var last := raws[|raws| - 1];
      Written(config, sfi, raws[..|raws| - 1]) + if Oversize(last).None? then Frame(config, sfi, last) else []
  }

  function Accepted(raws: seq<seq<Byte>>): seq<seq<Byte>>
  {
    if raws == [] then []
    else Accepted(raws[..|raws| - 1]) + if |raws[|raws| - 1]| <= 8184 then [raws[|raws| - 1]] else []
  }

  /** A three-bit channel count. */
  function Narrowed(config: AdtsConfig): AdtsConfig
  {
    config.(channels := config.channels % 8)
  }

  lemma FieldsRead(profile: nat, sfi: nat, channels: nat, frameLen: nat, payload: seq<Byte>)
    requires profile < 4 && sfi < 13 && channels < 8 && HEADER_LEN <= frameLen <= MAX_FRAME_LEN
    ensures var s := PackedBytes(profile, sfi, channels, frameLen) + payload;
            && InSync(s) && HeaderLen(s) == HEADER_LEN && FrameLen(s) == frameLen
            && ConfigAt(s) == Ok(AdtsConfig(ProfileOf(profile), SAMPLE_RATES[sfi], channels))
  {
    hide ProfileOf, PackedBytes, AnyHeader, InSync, HeaderLen, FrameLen;
    PackedIsAny(profile, sfi, channels, frameLen);
    AnyFieldsRead(1, profile, sfi, 0, channels, 0, frameLen, 31, 252, payload);
  }

  lemma {:induction false} FrameReads(config: AdtsConfig, sfi: nat, payload: seq<Byte>)
    requires RateIndex(config.sampleRate) == Some(sfi) && |payload| <= 8184
    ensures Look(Frame(config, sfi, payload)) == Whole(Narrowed(config), HEADER_LEN, HEADER_LEN + |payload|)
  {
    hide Header, PackedBytes, InSync, HeaderLen, FrameLen, ConfigAt, RateIndex, RateAt, ProfileOf;
    TablesInvert(sfi, config.sampleRate, config.profile, 0);
    HeaderIsPacked(config, sfi, HEADER_LEN + |payload|);
    RateOfIndex(config.sampleRate, sfi);
    FieldsRead(ProfileBits(config.profile), sfi, config.channels % 8, HEADER_LEN + |payload|, payload);
  }

  lemma RateOfIndex(rate: nat, sfi: nat)
    requires RateIndex(rate) == Some(sfi)
    ensures sfi < 13 && SAMPLE_RATES[sfi] == rate
  {
  }

  lemma {:induction false} WrittenReads(config: AdtsConfig, sfi: nat, raws: seq<seq<Byte>>)
    requires RateIndex(config.sampleRate) == Some(sfi)
    ensures Run(Feed(NEW_READER, Written(config, sfi, raws)))
            == Reader([], if Accepted(raws) == [] then None else Some(Narrowed(config)), Accepted(raws))
  {
    hide Run, Frame, RateIndex, Look;
    if raws == [] {
      NothingToRead(NEW_READER);
    } else {
      var front, last := raws[..|raws| - 1], raws[|raws| - 1];
      WrittenReads(config, sfi, front);
      var before, written := Run(Feed(NEW_READER, Written(config, sfi, front))), Written(config, sfi, front);
      if |last| <= 8184 {
        RunFeeds(Feed(NEW_READER, written), Frame(config, sfi, last));
        assert Feed(Feed(NEW_READER, written), Frame(config, sfi, last))
            == Feed(NEW_READER, Written(config, sfi, raws));
        OneFrameRead(before, config, sfi, last);
      } else {
        assert Written(config, sfi, raws) == written && Accepted(raws) == Accepted(front);
      }
    }
  }

  lemma {:induction false} OneFrameRead(r: Reader, config: AdtsConfig, sfi: nat, payload: seq<Byte>)
    requires r.buf == [] && RateIndex(config.sampleRate) == Some(sfi) && |payload| <= 8184
    ensures Run(Feed(r, Frame(config, sfi, payload))) == Reader([], Some(Narrowed(config)), r.payloads + [payload])
  {
    hide Look, Header, RateIndex;
    var frame := Frame(config, sfi, payload);
    assert [] + frame == frame && frame[HEADER_LEN..] == payload && frame[HEADER_LEN..|frame|] == payload;
    FrameReads(config, sfi, payload);
    NothingToRead(Reader([], Some(Narrowed(config)), r.payloads + [payload]));
  }

  /**
   Any payloads at any standard rate, written and cut in any way: every one of up to 8184 bytes comes back in order,
   under the configuration it was written with, and no byte is left.
   */
  lemma {:induction false} AdtsRoundTrip(config: AdtsConfig, sfi: nat, raws: seq<seq<Byte>>, chunks: seq<seq<Byte>>)
    requires RateIndex(config.sampleRate) == Some(sfi) && Concat(chunks) == Written(config, sfi, raws)
    ensures var r := PushAll(chunks);
            && r.payloads == Accepted(raws) && r.buf == []
            && (Accepted(raws) != [] ==> (r.config == Some(config) <==> config.channels <= 7))
  {
    hide Run, Written, RateIndex, PushAll;
    AdtsChunking(chunks);
    WrittenReads(config, sfi, raws);
  }

  // ---- Headers of any kind ----

  /** A header of any version, layer, private and copyright bits, buffer fullness and block count. */
  function AnyHeader(
    low: nat, profile: nat, sfi: nat, priv: nat, channels: nat, misc: nat, len: nat, x: nat, y: Byte): (s: seq<Byte>)
    requires low < 16 && profile < 4 && sfi < 16 && priv < 2 && channels < 8 && misc < 16 && len < 0x2000 && x < 32
    ensures |s| == 7
  {
    [0xFF, 0xF0 + low, profile * 64 + sfi * 4 + priv * 2 + channels / 4,
     channels % 4 * 64 + misc * 4 + len / 0x800, len / 8 % 0x100, len % 8 * 32 + x, y]
  }

  lemma ThirdByte(profile: nat, sfi: nat, priv: nat, high: nat)
    requires profile < 4 && sfi < 16 && priv < 2 && high < 2
    ensures var b := profile * 64 + sfi * 4 + priv * 2 + high;
            b / 64 == profile && b / 4 % 16 == sfi && b / 2 % 2 == priv && b % 2 == high
  {
    var b := profile * 64 + sfi * 4 + priv * 2 + high;
    DivUnique(b, 64, profile, sfi * 4 + priv * 2 + high);
    DivUnique(b, 4, profile * 16 + sfi, priv * 2 + high);
    DivUnique(profile * 16 + sfi, 16, profile, sfi);
    DivUnique(b, 2, profile * 32 + sfi * 2 + priv, high);
    DivUnique(profile * 32 + sfi * 2 + priv, 2, profile * 16 + sfi, priv);
  }

  lemma FourthByte(low: nat, misc: nat, high: nat)
    requires low < 4 && misc < 16 && high < 4
    ensures var b := low * 64 + misc * 4 + high; b / 64 == low && b / 4 % 16 == misc && b % 4 == high
  {
    var b := low * 64 + misc * 4 + high;
    DivUnique(b, 64, low, misc * 4 + high);
    DivUnique(b, 4, low * 16 + misc, high);
    DivUnique(low * 16 + misc, 16, low, misc);
  }

  lemma SixthByte(bits: nat, x: nat)
    requires bits < 8 && x < 32
    ensures (bits * 32 + x) / 32 == bits && (bits * 32 + x) % 32 == x
  {
    DivUnique(bits * 32 + x, 32, bits, x);
  }

  lemma LengthBits(len: nat)
    requires len < 0x2000
    ensures len / 0x800 < 4 && len == len / 0x800 * 0x800 + len / 8 % 0x100 * 8 + len % 8
  {
  }

  lemma AnyFieldsRead(
    low: nat, profile: nat, sfi: nat, priv: nat, channels: nat, misc: nat, len: nat, x: nat, y: Byte, rest: seq<Byte>)
    requires low < 16 && profile < 4 && sfi < 16 && priv < 2 && channels < 8 && misc < 16 && len < 0x2000 && x < 32
    ensures var s := AnyHeader(low, profile, sfi, priv, channels, misc, len, x, y) + rest;
            && InSync(s) && FrameLen(s) == len && HeaderLen(s) == (if low % 2 == 1 then 7 else 9)
            && s[2] / 64 == profile && s[2] / 4 % 16 == sfi && s[2] % 2 * 4 + s[3] / 64 == channels
            && s[2] / 2 % 2 == priv && s[3] / 4 % 16 == misc && s[5] % 32 == x && s[6] == y
  {
    LengthBits(len);
    ThirdByte(profile, sfi, priv, channels / 4);
    FourthByte(channels % 4, misc, len / 0x800);
    SixthByte(len % 8, x);
  }

  lemma PackedIsAny(profile: nat, sfi: nat, channels: nat, len: nat)
    requires profile < 4 && sfi < 16 && channels < 8 && len <= MAX_FRAME_LEN
    ensures PackedBytes(profile, sfi, channels, len) == AnyHeader(1, profile, sfi, 0, channels, 0, len, 31, 252)
  {
    LengthBits(len);
  }

  /**
   Any header is read by its fields alone: nine bytes long when its protection bit says that a checksum follows, waiting
   for the whole frame, then bad when the frame is shorter than its own header, or of a reserved rate.
   */
  lemma {:induction false} AnyHeaderLooks(
    low: nat, profile: nat, sfi: nat, priv: nat, channels: nat, misc: nat, len: nat, x: nat, y: Byte, rest: seq<Byte>)
    requires low < 16 && profile < 4 && sfi < 16 && priv < 2 && channels < 8 && misc < 16 && len < 0x2000 && x < 32
    ensures var s, header := AnyHeader(low, profile, sfi, priv, channels, misc, len, x, y) + rest,
                             if low % 2 == 1 then 7 else 9;
            var rates :=
              [96_000, 88_200, 64_000, 48_000, 44_100, 32_000, 24_000, 22_050, 16_000, 12_000, 11_025, 8_000, 7_350];
            Look(s) ==
            if |s| < header || |s| < len then Waiting
            else if len < header then Failed(BadSync)
            else if sfi >= 13 then Failed(UnsupportedSamplingFrequencyIndex(sfi))
            else Whole(AdtsConfig([MainProfile, LcProfile, SsrProfile, LtpProfile][profile], rates[sfi], channels),
                       header, len)
  {
    hide InSync, FrameLen, HeaderLen, AnyHeader;
    AnyFieldsRead(low, profile, sfi, priv, channels, misc, len, x, y, rest);
  }

  /** Without seven bytes nothing is said; with them, anything but twelve set bits in front is bad. */
  lemma {:induction false} SyncNeeded(buf: seq<Byte>)
    ensures |buf| < 7 ==> Look(buf) == Waiting
    ensures |buf| >= 7 && (buf[0] != 0xFF || buf[1] < 0xF0) ==> Look(buf) == Failed(BadSync)
  {
    hide FrameLen, ConfigAt;
  }

  /** The bits a reader has no use for: version 4, no layer, no checksum, fullness unknown, one block. */
  lemma {:induction false} UnreadBits(config: AdtsConfig, sfi: nat, payload: seq<Byte>)
    requires sfi < 13 && |payload| <= 8184
    ensures var s := Frame(config, sfi, payload);
            && |s| == |payload| + 7 && s[0] == 0xFF && s[1] == 0xF1 && s[2] / 2 % 2 == 0 && s[3] / 4 % 16 == 0
            && s[5] % 32 == 0x1F && s[6] == 0xFC
  {
    hide Header;
    hide PackedBytes, AnyHeader, InSync, HeaderLen, FrameLen;
    var profile, channels, len := ProfileBits(config.profile), config.channels % 8, HEADER_LEN + |payload|;
    HeaderIsPacked(config, sfi, len);
    PackedIsAny(profile, sfi, channels, len);
    AnyHeaderStarts(profile, sfi, channels, len);
    AnyFieldsRead(1, profile, sfi, 0, channels, 0, len, 31, 252, payload);
  }

  lemma AnyHeaderStarts(profile: nat, sfi: nat, channels: nat, len: nat)
    requires profile < 4 && sfi < 16 && channels < 8 && len < 0x2000
    ensures var s := AnyHeader(1, profile, sfi, 0, channels, 0, len, 31, 252); s[0] == 0xFF && s[1] == 0xF1
  {
  }

  /** A payload is refused when thirteen bits cannot tell its frame's length, which the error then names. */
  lemma {:induction false} OversizeExactly(raw: seq<Byte>)
    ensures Oversize(raw) == None <==> |raw| <= 8184
    ensures |raw| > 8184 ==> Oversize(raw) == Some(FrameTooLarge(|raw| + 7))
  {
  }
}
