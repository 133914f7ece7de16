/** The arithmetic macros of `videodev2.h` that the model relies on: the
    BT.656/1120 blanking and frame sizes of `struct v4l2_bt_timings`, the
    control-ID class and driver-private tests, the control IDs the encoders
    use, and the FOURCC pixel-format codes. */
module V4l2Macros {
  import opened Common

  // ---- DV timings ----

  /** The fields of `struct v4l2_bt_timings` that the size macros read. */
  datatype BtTimings = BtTimings(
    width: U32, height: U32,
    hfrontporch: U32, hsync: U32, hbackporch: U32,
    vfrontporch: U32, vsync: U32, vbackporch: U32,
    ilVfrontporch: U32, ilVsync: U32, ilVbackporch: U32)

  /** `V4L2_DV_BT_BLANKING_WIDTH`: horizontal front porch, sync and back
      porch, summed in `__u32` arithmetic. */
  function BlankingWidth(bt: BtTimings): (r: U32)
    ensures bt.hfrontporch + bt.hsync + bt.hbackporch < TWO_POW_32 ==>
      r == bt.hfrontporch + bt.hsync + bt.hbackporch
  {
    Add32(Add32(bt.hfrontporch, bt.hsync), bt.hbackporch)
  }

  /** `V4L2_DV_BT_FRAME_WIDTH`: active width plus blanking. */
  function FrameWidth(bt: BtTimings): (r: U32)
    ensures bt.width + bt.hfrontporch + bt.hsync + bt.hbackporch < TWO_POW_32 ==>
      r == bt.width + bt.hfrontporch + bt.hsync + bt.hbackporch
  {
    Add32(bt.width, BlankingWidth(bt))
  }

  /** The exact (unbounded) sum of the six vertical blanking fields. */
  function VerticalBlankingSum(bt: BtTimings): nat
  {
    bt.vfrontporch + bt.vsync + bt.vbackporch + bt.ilVfrontporch + bt.ilVsync + bt.ilVbackporch
  }

  /** `V4L2_DV_BT_BLANKING_HEIGHT`: the progressive and the interlaced
      vertical porches and syncs. */
  function BlankingHeight(bt: BtTimings): (r: U32)
    ensures VerticalBlankingSum(bt) < TWO_POW_32 ==> r == VerticalBlankingSum(bt)
  {
    Add32(Add32(Add32(Add32(Add32(bt.vfrontporch, bt.vsync), bt.vbackporch),
      bt.ilVfrontporch), bt.ilVsync), bt.ilVbackporch)
  }

  /** `V4L2_DV_BT_FRAME_HEIGHT`: active height plus blanking. */
  function FrameHeight(bt: BtTimings): (r: U32)
    ensures bt.height + VerticalBlankingSum(bt) < TWO_POW_32 ==>
      r == bt.height + VerticalBlankingSum(bt)
  {
    Add32(bt.height, BlankingHeight(bt))
  }

  /** When the total fits 32 bits, the frame is the active area plus the
      blanking, exactly, and is at least as large as either part. */
  lemma FrameSizesWithoutOverflow(bt: BtTimings)
    requires bt.width + bt.hfrontporch + bt.hsync + bt.hbackporch < TWO_POW_32
    requires bt.height + VerticalBlankingSum(bt) < TWO_POW_32
    ensures FrameWidth(bt) == bt.width + BlankingWidth(bt)
    ensures FrameHeight(bt) == bt.height + BlankingHeight(bt)
    ensures FrameWidth(bt) >= bt.width && FrameWidth(bt) >= BlankingWidth(bt)
    ensures FrameHeight(bt) >= bt.height && FrameHeight(bt) >= BlankingHeight(bt)
  {
  }

  // ---- control IDs ----

  /** `V4L2_CTRL_ID2CLASS(id)`: the class bits of a control ID. */
  function Id2Class(id: bv32): (c: bv32)
    ensures c & 0xF000_FFFF == 0
    ensures c & 0x0FFF_0000 == id & 0x0FFF_0000
  {
    id & 0x0fff_0000
  }

  /** `V4L2_CTRL_DRIVER_PRIV(id)`: the low 16 bits are at least 0x1000. */
  predicate DriverPriv(id: bv32)
    ensures DriverPriv(id) <==> id & 0xF000 != 0
  {
    (id & 0xffff) >= 0x1000
  }

  const CTRL_CLASS_USER: bv32 := 0x0098_0000
  const CTRL_CLASS_MPEG: bv32 := 0x0099_0000

  const CID_BASE: bv32 := 0x0098_0900
  const CID_BRIGHTNESS: bv32 := CID_BASE + 0
  const CID_CONTRAST: bv32 := CID_BASE + 1
  const CID_SATURATION: bv32 := CID_BASE + 2
  const CID_HUE: bv32 := CID_BASE + 3
  const CID_AUTO_WHITE_BALANCE: bv32 := CID_BASE + 12
  const CID_RED_BALANCE: bv32 := CID_BASE + 14
  const CID_BLUE_BALANCE: bv32 := CID_BASE + 15
  const CID_GAMMA: bv32 := CID_BASE + 16
  const CID_EXPOSURE: bv32 := CID_BASE + 17
  const CID_AUTOGAIN: bv32 := CID_BASE + 18
  const CID_GAIN: bv32 := CID_BASE + 19
  const CID_AUTO_EXPOSURE_BIAS: bv32 := CID_BASE + 26

  const CID_MPEG_BASE: bv32 := 0x0099_0900
  const CID_MPEG_VIDEO_BITRATE: bv32 := CID_MPEG_BASE + 207
  const CID_MPEG_VIDEO_GOP_SIZE: bv32 := CID_MPEG_BASE + 210
  const CID_MPEG_VIDEO_H264_PROFILE: bv32 := CID_MPEG_BASE + 264
  const CID_MPEG_VIDEO_H264_ENTROPY_MODE: bv32 := CID_MPEG_BASE + 274
  const CID_JPEG_COMPRESSION_QUALITY: bv32 := CID_MPEG_BASE + 500

  /** Every user control `V4L2_CID_BASE + 0 .. 26` is in the user class and
      is not driver-private. */
  lemma UserControlClass(k: bv32)
    requires k <= 26
    ensures Id2Class(CID_BASE + k) == CTRL_CLASS_USER
    ensures !DriverPriv(CID_BASE + k)
  {
  }

  /** Every control `V4L2_CID_MPEG_BASE + 0 .. 500` (bitrate, GOP size, the
      H.264 controls, and the JPEG quality as this header numbers it) is in
      the MPEG class and is not driver-private. */
  lemma MpegControlClass(k: bv32)
    requires k <= 500
    ensures Id2Class(CID_MPEG_BASE + k) == CTRL_CLASS_MPEG
    ensures !DriverPriv(CID_MPEG_BASE + k)
  {
  }

  /** The named controls the encoders set are all standard, non-private
      controls, and the three encoder controls are in the MPEG class. */
  lemma EncoderControlsAreStandard()
    ensures Id2Class(CID_MPEG_VIDEO_BITRATE) == CTRL_CLASS_MPEG && !DriverPriv(CID_MPEG_VIDEO_BITRATE)
    ensures Id2Class(CID_MPEG_VIDEO_GOP_SIZE) == CTRL_CLASS_MPEG && !DriverPriv(CID_MPEG_VIDEO_GOP_SIZE)
    ensures Id2Class(CID_JPEG_COMPRESSION_QUALITY) == CTRL_CLASS_MPEG
    ensures !DriverPriv(CID_JPEG_COMPRESSION_QUALITY)
    ensures Id2Class(CID_BRIGHTNESS) == CTRL_CLASS_USER && Id2Class(CID_AUTO_EXPOSURE_BIAS) == CTRL_CLASS_USER
  {
    MpegControlClass(207);
    MpegControlClass(210);
    MpegControlClass(500);
    UserControlClass(0);
    UserControlClass(26);
  }

  // ---- pixel formats ----

  /** `v4l2_fourcc(a, b, c, d)`: four characters packed little-endian. */
  function Fourcc(a: bv8, b: bv8, c: bv8, d: bv8): (code: bv32)
    ensures (code & 0xFF) as bv8 == a && ((code >> 8) & 0xFF) as bv8 == b
    ensures ((code >> 16) & 0xFF) as bv8 == c && (code >> 24) as bv8 == d
  {
    (a as bv32) | ((b as bv32) << 8) | ((c as bv32) << 16) | ((d as bv32) << 24)
  }

  /** The code of an ASCII character. */
  function Ascii(ch: char): bv8
    requires ch as int < 0x80
  {
    (ch as int) as bv8
  }

  const PIX_FMT_RGB565: bv32 := Fourcc(Ascii('R'), Ascii('G'), Ascii('B'), Ascii('P'))
  const PIX_FMT_SBGGR8: bv32 := Fourcc(Ascii('B'), Ascii('A'), Ascii('8'), Ascii('1'))

  lemma PixelFormatsDistinct()
    ensures PIX_FMT_RGB565 != PIX_FMT_SBGGR8
  {
  }
}
