/** The two encoders `mipi_dsi_cam` builds around its own camera: the same
    device session as the stand-alone components, except that parameters are
    given to `init`, claimed elements are marked QUEUED and the encoded
    output element ACTIVE. */
module MipiEncoders {
  import opened Common
  import opened VideoBuffers
  import opened CodecSession
  import JpegComponent

  const DEFAULT_QUALITY: U8 := 80
  const DEFAULT_BITRATE: U32 := 2000000
  const DEFAULT_GOP_SIZE: U32 := 30

  class MipiDsiCamJPEGEncoder {
    const camera: CameraInfo
    const dev: CodecDevice
    var quality: U8

    predicate Valid()
      reads this, dev
    {
      dev.Valid() && 1 <= quality <= 100
    }

    /** Bound to `camera`; quality 80, device closed. */
    constructor(camera: CameraInfo)
      ensures Valid() && fresh(dev) && this.camera == camera
      ensures quality == DEFAULT_QUALITY && !dev.initialized && dev.fd == -1
    {
      this.camera := camera;
      dev := new CodecDevice();
      quality := DEFAULT_QUALITY;
    }

    /** `init(quality)`: OK without change when already initialised (the
        new quality is ignored); otherwise store the clamped quality, then
        run the set-up sequence. */
    method Init(q: U8, s: InitScript) returns (status: Status)
      requires Valid()
      modifies this, dev
      ensures Valid()
      ensures old(dev.initialized) ==> status == Ok && unchanged(this, dev)
      ensures !old(dev.initialized) ==> status == StartStatus(s) && quality == JpegComponent.ClampQuality(q)
      ensures dev.initialized <==> status == Ok
      ensures status != Ok ==> dev.inputBuffer == null && dev.outputBuffer == null && dev.fd < 0
    {
      if dev.initialized {
        return Ok;
      }
      quality := JpegComponent.ClampQuality(q);
      status := dev.Start(camera, s);
    }

    /** `deinit`. */
    method Deinit() returns (status: Status)
      requires Valid()
      modifies dev
      ensures Valid() && status == Ok
      ensures !dev.initialized && dev.inputBuffer == null && dev.outputBuffer == null
      ensures !dev.streamingOut && !dev.streamingCap
      ensures old(dev.initialized) ==> dev.fd == -1
      ensures !old(dev.initialized) ==> unchanged(dev)
    {
      status := dev.Stop();
    }

    /** `set_quality`: stores the clamped value; the driver is told only
        when initialised. */
    method SetQuality(q: U8) returns (sent: bool)
      requires Valid()
      modifies this
      ensures Valid() && quality == JpegComponent.ClampQuality(q)
      ensures sent <==> dev.initialized
    {
      quality := JpegComponent.ClampQuality(q);
      sent := dev.ControlsReachDevice();
    }

    /** `encode_internal_`: one encode round with QUEUED claims and an
        ACTIVE result. */
    method EncodeInternal(srcSize: nat, d: DriverScript) returns (status: Status, encodedSize: Option<nat>)
      requires Valid() && dev.initialized
      modifies dev, dev.inputBuffer.elements, dev.outputBuffer.elements
      ensures Valid() && dev.initialized
      ensures dev.inputBuffer == old(dev.inputBuffer) && dev.outputBuffer == old(dev.outputBuffer) && dev.fd == old(dev.fd)
      ensures var r := Encode(MIPI_CLAIMS, old(dev.Snapshot()), srcSize, d);
        status == r.status && encodedSize == r.encodedSize && dev.Snapshot() == r.after
    {
      status, encodedSize := dev.EncodeRound(MIPI_CLAIMS, srcSize, d);
    }

    /** `encode_frame`: FAIL when not initialised, INVALID_ARG on a null
        pointer. */
    method EncodeFrame(srcPresent: bool, dstPresent: bool, sizePresent: bool, srcSize: nat, d: DriverScript)
      returns (status: Status, encodedSize: Option<nat>)
      requires Valid()
      modifies dev, dev.ElementArrays()
      ensures Valid()
      ensures !old(dev.initialized) ==> status == Fail && unchanged(dev)
      ensures old(dev.initialized) && !(srcPresent && dstPresent && sizePresent) ==>
        status == ErrInvalidArg && unchanged(dev) && unchanged(dev.inputBuffer.elements, dev.outputBuffer.elements)
      ensures old(dev.initialized) && srcPresent && dstPresent && sizePresent ==>
        dev.initialized &&
        var r := Encode(MIPI_CLAIMS, old(dev.Snapshot()), srcSize, d);
        status == r.status && encodedSize == r.encodedSize && dev.Snapshot() == r.after
      ensures dev.fd == old(dev.fd) && dev.inputBuffer == old(dev.inputBuffer) &&
        dev.outputBuffer == old(dev.outputBuffer)
    {
      if !dev.initialized {
        return Fail, None;
      }
      if !(srcPresent && dstPresent && sizePresent) {
        return ErrInvalidArg, None;
      }
      status, encodedSize := EncodeInternal(srcSize, d);
    }

    /** `encode_frame_with_buffer`: FAIL when not initialised or given no
        element. */
    method EncodeFrameWithBuffer(input: Option<Element>, d: DriverScript)
      returns (status: Status, encodedSize: Option<nat>)
      requires Valid()
      modifies dev, dev.ElementArrays()
      ensures Valid()
      ensures (!old(dev.initialized) || input == None) ==> status == Fail && unchanged(dev)
      ensures old(dev.initialized) && input == None ==>
        unchanged(dev.inputBuffer.elements, dev.outputBuffer.elements)
      ensures old(dev.initialized) && input != None ==>
        dev.initialized &&
        var r := Encode(MIPI_CLAIMS, old(dev.Snapshot()), input.value.validSize, d);
        status == r.status && encodedSize == r.encodedSize && dev.Snapshot() == r.after
      ensures dev.fd == old(dev.fd) && dev.inputBuffer == old(dev.inputBuffer) &&
        dev.outputBuffer == old(dev.outputBuffer)
    {
      if !dev.initialized || input == None {
        return Fail, None;
      }
      status, encodedSize := EncodeInternal(input.value.validSize, d);
    }
  }

  class MipiDsiCamH264Encoder {
    const camera: CameraInfo
    const dev: CodecDevice
    var bitrate: U32
    var gopSize: U32
    var frameCount: U32

    predicate Valid()
      reads this, dev
    {
      dev.Valid() && gopSize >= 1
    }

    /** Bound to `camera`; 2 Mbit/s, GOP 30, no frame encoded, device
        closed. */
    constructor(camera: CameraInfo)
      ensures Valid() && fresh(dev) && this.camera == camera
      ensures bitrate == DEFAULT_BITRATE && gopSize == DEFAULT_GOP_SIZE && frameCount == 0
      ensures !dev.initialized && dev.fd == -1
    {
      this.camera := camera;
      dev := new CodecDevice();
      bitrate := DEFAULT_BITRATE;
      gopSize := DEFAULT_GOP_SIZE;
      frameCount := 0;
    }

    /** `init(bitrate, gop_size)`: OK without change when already
        initialised; otherwise store the bitrate, `max(1, gop)` and a zero
        frame counter (kept even if the set-up then fails), then run the
        set-up sequence. */
    method Init(b: U32, g: U32, s: InitScript) returns (status: Status)
      requires Valid()
      modifies this, dev
      ensures Valid()
      ensures old(dev.initialized) ==> status == Ok && unchanged(this, dev)
      ensures !old(dev.initialized) ==>
        status == StartStatus(s) && bitrate == b && gopSize == AtLeastOne(g) && frameCount == 0
      ensures dev.initialized <==> status == Ok
      ensures status != Ok ==> dev.inputBuffer == null && dev.outputBuffer == null && dev.fd < 0
    {
      if dev.initialized {
        return Ok;
      }
      bitrate := b;
      gopSize := AtLeastOne(g);
      frameCount := 0;
      status := dev.Start(camera, s);
    }

    /** `deinit`. */
    method Deinit() returns (status: Status)
      requires Valid()
      modifies dev
      ensures Valid() && status == Ok
      ensures !dev.initialized && dev.inputBuffer == null && dev.outputBuffer == null
      ensures !dev.streamingOut && !dev.streamingCap
      ensures old(dev.initialized) ==> dev.fd == -1
      ensures !old(dev.initialized) ==> unchanged(dev)
    {
      status := dev.Stop();
    }

    /** `set_bitrate`: stores the value as given. */
    method SetBitrate(b: U32) returns (sent: bool)
      requires Valid()
      modifies this
      ensures Valid() && bitrate == b
      ensures sent <==> dev.initialized
      ensures gopSize == old(gopSize) && frameCount == old(frameCount)
    {
      bitrate := b;
      sent := dev.ControlsReachDevice();
    }

    /** `set_gop_size`: stores `max(1, g)`. */
    method SetGopSize(g: U32) returns (sent: bool)
      requires Valid()
      modifies this
      ensures Valid() && gopSize == AtLeastOne(g)
      ensures sent <==> dev.initialized
      ensures bitrate == old(bitrate) && frameCount == old(frameCount)
    {
      gopSize := AtLeastOne(g);
      sent := dev.ControlsReachDevice();
    }

    /** `encode_internal_`: one encode round with QUEUED claims and an
        ACTIVE result; on success the key-frame flag is computed from the
        frame counter before it is incremented. */
    method EncodeInternal(srcSize: nat, d: DriverScript)
      returns (status: Status, encodedSize: Option<nat>, keyframe: Option<bool>)
      requires Valid() && dev.initialized
      modifies this, dev, dev.inputBuffer.elements, dev.outputBuffer.elements
      ensures Valid() && dev.initialized
      ensures dev.inputBuffer == old(dev.inputBuffer) && dev.outputBuffer == old(dev.outputBuffer) && dev.fd == old(dev.fd)
      ensures var r := Encode(MIPI_CLAIMS, old(dev.Snapshot()), srcSize, d);
        status == r.status && encodedSize == r.encodedSize && dev.Snapshot() == r.after
      ensures frameCount == (if status == Ok then Inc32(old(frameCount)) else old(frameCount))
      ensures keyframe == (if status == Ok then Some(IsKeyframe(old(frameCount), gopSize)) else None)
      ensures bitrate == old(bitrate) && gopSize == old(gopSize)
    {
      var isKey := IsKeyframe(frameCount, gopSize);
      status, encodedSize := dev.EncodeRound(MIPI_CLAIMS, srcSize, d);
      keyframe := None;
      if status == Ok {
        keyframe := Some(isKey);
        frameCount := Inc32(frameCount);
      }
    }

    /** `encode_frame`: FAIL when not initialised, INVALID_ARG on a null
        pointer. */
    method EncodeFrame(srcPresent: bool, dstPresent: bool, sizePresent: bool, srcSize: nat, d: DriverScript)
      returns (status: Status, encodedSize: Option<nat>, keyframe: Option<bool>)
      requires Valid()
      modifies this, dev, dev.ElementArrays()
      ensures Valid()
      ensures !old(dev.initialized) ==> status == Fail && unchanged(this, dev)
      ensures old(dev.initialized) && !(srcPresent && dstPresent && sizePresent) ==>
        status == ErrInvalidArg && unchanged(this, dev) && unchanged(dev.inputBuffer.elements, dev.outputBuffer.elements)
      ensures old(dev.initialized) && srcPresent && dstPresent && sizePresent ==>
        dev.initialized &&
        var r := Encode(MIPI_CLAIMS, old(dev.Snapshot()), srcSize, d);
        status == r.status && encodedSize == r.encodedSize && dev.Snapshot() == r.after
      ensures status != Ok ==> encodedSize == None && keyframe == None && frameCount == old(frameCount)
      ensures dev.fd == old(dev.fd) && dev.inputBuffer == old(dev.inputBuffer) &&
        dev.outputBuffer == old(dev.outputBuffer)
      ensures bitrate == old(bitrate) && gopSize == old(gopSize)
      ensures status == Ok ==>
        frameCount == Inc32(old(frameCount)) && keyframe == Some(IsKeyframe(old(frameCount), gopSize))
    {
      if !dev.initialized {
        return Fail, None, None;
      }
      if !(srcPresent && dstPresent && sizePresent) {
        return ErrInvalidArg, None, None;
      }
      status, encodedSize, keyframe := EncodeInternal(srcSize, d);
    }

    /** `encode_frame_with_buffer`: FAIL when not initialised or given no
        element. */
    method EncodeFrameWithBuffer(input: Option<Element>, d: DriverScript)
      returns (status: Status, encodedSize: Option<nat>, keyframe: Option<bool>)
      requires Valid()
      modifies this, dev, dev.ElementArrays()
      ensures Valid()
      ensures (!old(dev.initialized) || input == None) ==> status == Fail && unchanged(this, dev)
      ensures old(dev.initialized) && input == None ==>
        unchanged(dev.inputBuffer.elements, dev.outputBuffer.elements)
      ensures old(dev.initialized) && input != None ==>
        dev.initialized &&
        var r := Encode(MIPI_CLAIMS, old(dev.Snapshot()), input.value.validSize, d);
        status == r.status && encodedSize == r.encodedSize && dev.Snapshot() == r.after
      ensures status != Ok ==> encodedSize == None && keyframe == None && frameCount == old(frameCount)
      ensures dev.fd == old(dev.fd) && dev.inputBuffer == old(dev.inputBuffer) &&
        dev.outputBuffer == old(dev.outputBuffer)
      ensures bitrate == old(bitrate) && gopSize == old(gopSize)
      ensures status == Ok ==>
        frameCount == Inc32(old(frameCount)) && keyframe == Some(IsKeyframe(old(frameCount), gopSize))
    {
      if !dev.initialized || input == None {
        return Fail, None, None;
      }
      status, encodedSize, keyframe := EncodeInternal(input.value.validSize, d);
    }
  }
}
