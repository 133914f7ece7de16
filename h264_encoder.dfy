/** The ESPHome `h264` component: a hardware H.264 encoder bound to a MIPI
    camera, set up once at boot and then asked to encode RGB565 frames. */
module H264Component {
  import opened Common
  import opened VideoBuffers
  import opened CodecSession

  const DEFAULT_BITRATE: U32 := 2000000
  const DEFAULT_GOP_SIZE: U32 := 30

  class H264Encoder {
    var camera: Option<CameraInfo>
    const dev: CodecDevice
    var bitrate: U32
    var gopSize: U32
    var frameCount: U32
    /** Set by `mark_failed()`. */
    var failed: bool

    /** The session is consistent and the stored GOP size is already clamped. */
    predicate Valid()
      reads this, dev
    {
      dev.Valid() && gopSize >= 1
    }

    /** The field defaults: no camera, 2 Mbit/s, GOP 30, no frame encoded,
        device closed. */
    constructor()
      ensures Valid() && fresh(dev)
      ensures camera == None && bitrate == DEFAULT_BITRATE && gopSize == DEFAULT_GOP_SIZE
      ensures frameCount == 0 && !failed
      ensures !dev.initialized && dev.fd == -1
    {
      camera := None;
      dev := new CodecDevice();
      bitrate := DEFAULT_BITRATE;
      gopSize := DEFAULT_GOP_SIZE;
      frameCount := 0;
      failed := false;
    }

    method SetCamera(cam: CameraInfo)
      requires Valid()
      modifies this
      ensures Valid() && camera == Some(cam)
      ensures bitrate == old(bitrate) && gopSize == old(gopSize) && frameCount == old(frameCount)
      ensures failed == old(failed)
    {
      camera := Some(cam);
    }

    /** `set_bitrate`: stores the value as given; the driver is told only
        when the encoder is initialised (`sent`), and a refusal is only
        logged. */
    method SetBitrate(b: U32) returns (sent: bool)
      requires Valid()
      modifies this
      ensures Valid() && bitrate == b
      ensures sent <==> dev.initialized
      ensures camera == old(camera) && gopSize == old(gopSize) && frameCount == old(frameCount)
      ensures failed == old(failed)
    {
      bitrate := b;
      sent := dev.ControlsReachDevice();
    }

    /** `set_gop_size`: stores `max(1, g)`. */
    method SetGopSize(g: U32) returns (sent: bool)
      requires Valid()
      modifies this
      ensures Valid() && gopSize == AtLeastOne(g)
      ensures sent <==> dev.initialized
      ensures camera == old(camera) && bitrate == old(bitrate) && frameCount == old(frameCount)
      ensures failed == old(failed)
    {
      gopSize := AtLeastOne(g);
      sent := dev.ControlsReachDevice();
    }

    /** `setup`: without a camera, or when the set-up fails, the component
        is marked failed. */
    method Setup(s: InitScript)
      requires Valid()
      modifies this, dev
      ensures Valid()
      ensures camera == None ==> failed && unchanged(dev)
      ensures camera != None ==>
        (dev.initialized <==> old(dev.initialized) || StartStatus(s) == Ok)
      ensures failed == (old(failed) || camera == None || !dev.initialized)
      ensures camera == old(camera) && bitrate == old(bitrate) && gopSize == old(gopSize)
      ensures frameCount == old(frameCount)
    {
      if camera == None {
        failed := true;
        return;
      }
      var status := InitInternal(s);
      if status != Ok {
        failed := true;
      }
    }

    /** `init_internal_`: OK without change when already initialised;
        otherwise the session's set-up sequence. The frame counter is not
        reset. */
    method InitInternal(s: InitScript) returns (status: Status)
      requires Valid() && camera != None
      modifies dev
      ensures Valid()
      ensures old(dev.initialized) ==> status == Ok && unchanged(dev)
      ensures !old(dev.initialized) ==> status == StartStatus(s)
      ensures dev.initialized <==> status == Ok
      ensures status != Ok ==> dev.inputBuffer == null && dev.outputBuffer == null && dev.fd < 0
    {
      if dev.initialized {
        return Ok;
      }
      status := dev.Start(camera.value, s);
    }

    /** `deinit_internal_`. */
    method DeinitInternal() returns (status: Status)
      requires Valid()
      modifies dev
      ensures Valid() && status == Ok
      ensures !dev.initialized && dev.inputBuffer == null && dev.outputBuffer == null
      ensures !dev.streamingOut && !dev.streamingCap
      ensures old(dev.initialized) ==> dev.fd == -1
      ensures !old(dev.initialized) ==> unchanged(dev)
    {
      status := dev.Stop();
    }

    /** `encode_internal_`: one encode round; on success the key-frame flag
        is computed from the frame counter before it is incremented. */
    method EncodeInternal(srcSize: nat, d: DriverScript)
      returns (status: Status, encodedSize: Option<nat>, keyframe: Option<bool>)
      requires Valid() && dev.initialized
      modifies this, dev, dev.inputBuffer.elements, dev.outputBuffer.elements
      ensures Valid() && dev.initialized
      ensures dev.inputBuffer == old(dev.inputBuffer) && dev.outputBuffer == old(dev.outputBuffer) && dev.fd == old(dev.fd)
      ensures var r := Encode(COMPONENT_CLAIMS, old(dev.Snapshot()), srcSize, d);
        status == r.status && encodedSize == r.encodedSize && dev.Snapshot() == r.after
      ensures frameCount == (if status == Ok then Inc32(old(frameCount)) else old(frameCount))
      ensures keyframe == (if status == Ok then Some(IsKeyframe(old(frameCount), gopSize)) else None)
      ensures camera == old(camera) && bitrate == old(bitrate) && gopSize == old(gopSize)
      ensures failed == old(failed)
    {
      var isKey := IsKeyframe(frameCount, gopSize);
      status, encodedSize := dev.EncodeRound(COMPONENT_CLAIMS, srcSize, d);
      keyframe := None;
      if status == Ok {
        keyframe := Some(isKey);
        frameCount := Inc32(frameCount);
      }
    }

    /** `encode_frame`: FAIL when not initialised, INVALID_ARG when the
        source or either destination pointer is null. */
    method EncodeFrame(srcPresent: bool, dstPresent: bool, sizePresent: bool, srcSize: nat, d: DriverScript)
      returns (status: Status, encodedSize: Option<nat>, keyframe: Option<bool>)
      requires Valid()
      modifies this, dev, dev.ElementArrays()
      ensures Valid()
      ensures !old(dev.initialized) ==> status == Fail && unchanged(this, dev)
      ensures old(dev.initialized) && !(srcPresent && dstPresent && sizePresent) ==>
        status == ErrInvalidArg && unchanged(this, dev) && unchanged(dev.inputBuffer.elements, dev.outputBuffer.elements)
      ensures old(dev.initialized) && srcPresent && dstPresent && sizePresent ==>
        dev.initialized &&
        var r := Encode(COMPONENT_CLAIMS, old(dev.Snapshot()), srcSize, d);
        status == r.status && encodedSize == r.encodedSize && dev.Snapshot() == r.after
      ensures status != Ok ==> encodedSize == None && keyframe == None && frameCount == old(frameCount)
      ensures dev.fd == old(dev.fd) && dev.inputBuffer == old(dev.inputBuffer) &&
        dev.outputBuffer == old(dev.outputBuffer)
      ensures bitrate == old(bitrate) && gopSize == old(gopSize)
      ensures camera == old(camera) && failed == old(failed)
      ensures status == Ok ==>
        frameCount == Inc32(old(frameCount)) && keyframe == Some(IsKeyframe(old(frameCount), gopSize))
    {
      if !dev.initialized {
        return Fail, None, None;
      }
      if !(srcPresent && dstPresent && sizePresent) {
        return ErrInvalidArg, None, None;
      }
      status, encodedSize, keyframe := EncodeInternal(srcSize, d);
    }

    /** `encode_frame_with_buffer`: FAIL when not initialised or given no
        element; otherwise encodes the element's valid bytes. */
    method EncodeFrameWithBuffer(input: Option<Element>, d: DriverScript)
      returns (status: Status, encodedSize: Option<nat>, keyframe: Option<bool>)
      requires Valid()
      modifies this, dev, dev.ElementArrays()
      ensures Valid()
      ensures (!old(dev.initialized) || input == None) ==> status == Fail && unchanged(this, dev)
      ensures old(dev.initialized) && input == None ==>
        unchanged(dev.inputBuffer.elements, dev.outputBuffer.elements)
      ensures old(dev.initialized) && input != None ==>
        dev.initialized &&
        var r := Encode(COMPONENT_CLAIMS, old(dev.Snapshot()), input.value.validSize, d);
        status == r.status && encodedSize == r.encodedSize && dev.Snapshot() == r.after
      ensures status != Ok ==> encodedSize == None && keyframe == None && frameCount == old(frameCount)
      ensures dev.fd == old(dev.fd) && dev.inputBuffer == old(dev.inputBuffer) &&
        dev.outputBuffer == old(dev.outputBuffer)
      ensures bitrate == old(bitrate) && gopSize == old(gopSize)
      ensures camera == old(camera) && failed == old(failed)
      ensures status == Ok ==>
        frameCount == Inc32(old(frameCount)) && keyframe == Some(IsKeyframe(old(frameCount), gopSize))
    {
      if !dev.initialized || input == None {
        return Fail, None, None;
      }
      status, encodedSize, keyframe := EncodeInternal(input.value.validSize, d);
    }
  }
}
