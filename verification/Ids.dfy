/** Element IDs of the WebM subset, marker bits included, and the two ID classes the reader steers by. */
module Ids {
  const EBML_HEADER: nat := 0x1A45_DFA3
  const EBML_VERSION: nat := 0x4286
  const EBML_READ_VERSION: nat := 0x42F7
  const EBML_MAX_ID_LENGTH: nat := 0x42F2
  const EBML_MAX_SIZE_LENGTH: nat := 0x42F3
  const DOC_TYPE: nat := 0x4282
  const DOC_TYPE_VERSION: nat := 0x4287
  const DOC_TYPE_READ_VERSION: nat := 0x4285
  const SEGMENT: nat := 0x1853_8067
  const SEGMENT_INFO: nat := 0x1549_A966
  const TIMECODE_SCALE: nat := 0x2A_D7B1
  const TRACKS: nat := 0x1654_AE6B
  const TRACK_ENTRY: nat := 0xAE
  const TRACK_NUMBER: nat := 0xD7
  const TRACK_TYPE: nat := 0x83
  const CODEC_ID: nat := 0x86
  const CODEC_PRIVATE: nat := 0x63A2
  const VIDEO: nat := 0xE0
  const PIXEL_WIDTH: nat := 0xB0
  const PIXEL_HEIGHT: nat := 0xBA
  const CLUSTER: nat := 0x1F43_B675
  const TIMECODE: nat := 0xE7
  const SIMPLE_BLOCK: nat := 0xA3
  const AUDIO: nat := 0xE1
  const SAMPLING_FREQUENCY: nat := 0xB5
  const CHANNELS: nat := 0x9F
  const BLOCK_GROUP: nat := 0xA0
  const BLOCK: nat := 0xA1
  const BLOCK_DURATION: nat := 0x9B
  const REFERENCE_BLOCK: nat := 0xFB
  const CUES: nat := 0x1C53_BB6B
  const CUE_POINT: nat := 0xBB
  const CUE_TIME: nat := 0xB3
  const CUE_TRACK_POSITIONS: nat := 0xB7
  const CUE_CLUSTER_POSITION: nat := 0xF1
  const SEEK_HEAD: nat := 0x114D_9B74
  const SEEK: nat := 0x4DBB
  const SEEK_ID: nat := 0x53AB
  const SEEK_POSITION: nat := 0x53AC

  /** Elements whose contents the reader looks at one by one. */
  predicate IsDescendMaster(id: nat)
  {
    || id == SEGMENT || id == SEGMENT_INFO || id == TRACKS || id == TRACK_ENTRY || id == VIDEO || id == AUDIO
    || id == CLUSTER || id == BLOCK_GROUP || id == CUES || id == CUE_POINT || id == CUE_TRACK_POSITIONS
    || id == SEEK_HEAD || id == SEEK
  }

  /** IDs that only occur directly under a Segment, and so end an unknown-size Cluster (section 6.2 of RFC 8794). */
  predicate IsSegmentLevelChild(id: nat)
  {
    id == SEGMENT_INFO || id == TRACKS || id == CLUSTER || id == CUES || id == SEEK_HEAD
  }
}
