/** The ESPHome `jpeg` component: a hardware JPEG encoder bound to a MIPI
    camera, set up once at boot and then asked to encode RGB565 frames. */
module JpegComponent {
  import opened Common
  import opened VideoBuffers
  import opened CodecSession

  const DEFAULT_QUALITY: U8 := 80

  /** `std::max<uint8_t>(1, std::min<uint8_t>(q, 100))`. */
  function ClampQuality(q: U8): (r: U8)
    ensures 1 <= r <= 100
    ensures 1 <= q <= 100 ==> r == q
    ensures q == 0 ==> r == 1
    ensures q > 100 ==> r == 100
  {
    if q > 100 then 100 else if q < 1 then 1 else q
  }

  class JPEGEncoder {
    var camera: Option<CameraInfo>
    const dev: CodecDevice
    var quality: U8
    /** Set by `mark_failed()`. */
    var failed: bool

    /** The session is consistent and the stored quality is already clamped. */
    predicate Valid()
      reads this, dev
    {
      dev.Valid() && 1 <= quality <= 100
    }

    /** The field defaults: no camera, quality 80, device closed. */
    constructor()
      ensures Valid() && fresh(dev)
      ensures camera == None && quality == DEFAULT_QUALITY && !failed
      ensures !dev.initialized && dev.fd == -1
    {
      camera := None;
      dev := new CodecDevice();
      quality := DEFAULT_QUALITY;
      failed := false;
    }

    method SetCamera(cam: CameraInfo)
      requires Valid()
      modifies this
      ensures Valid() && camera == Some(cam)
      ensures quality == old(quality) && failed == old(failed)
    {
      camera := Some(cam);
    }

    /** `set_quality`: stores the clamped value; the driver is told only
        when the encoder is initialised (`sent`), and a refusal is only
        logged. */
    method SetQuality(q: U8) returns (sent: bool)
      requires Valid()
      modifies this
      ensures Valid() && quality == ClampQuality(q)
      ensures sent <==> dev.initialized
      ensures camera == old(camera) && failed == old(failed)
    {
      quality := ClampQuality(q);
      sent := dev.ControlsReachDevice();
    }

    /** `setup`: without a camera, or when the set-up fails, the component
        is marked failed. */
    method Setup(s: InitScript)
      requires Valid()
      modifies this, dev
      ensures Valid()
      ensures camera == None ==> failed && unchanged(dev)
      ensures camera != None ==>
        (dev.initialized <==> old(dev.initialized) || StartStatus(s) == Ok)
      ensures failed == (old(failed) || camera == None || !dev.initialized)
      ensures camera == old(camera) && quality == old(quality)
    {
      if camera == None {
        failed := true;
        return;
      }
      var status := InitInternal(s);
      if status != Ok {
        failed := true;
      }
    }

    /** `init_internal_`: OK without change when already initialised;
        otherwise the session's set-up sequence. */
    method InitInternal(s: InitScript) returns (status: Status)
      requires Valid() && camera != None
      modifies dev
      ensures Valid()
      ensures old(dev.initialized) ==> status == Ok && unchanged(dev)
      ensures !old(dev.initialized) ==> status == StartStatus(s)
      ensures dev.initialized <==> status == Ok
      ensures status != Ok ==> dev.inputBuffer == null && dev.outputBuffer == null && dev.fd < 0
    {
      if dev.initialized {
        return Ok;
      }
      status := dev.Start(camera.value, s);
    }

    /** `deinit_internal_`. */
    method DeinitInternal() returns (status: Status)
      requires Valid()
      modifies dev
      ensures Valid() && status == Ok
      ensures !dev.initialized && dev.inputBuffer == null && dev.outputBuffer == null
      ensures !dev.streamingOut && !dev.streamingCap
      ensures old(dev.initialized) ==> dev.fd == -1
      ensures !old(dev.initialized) ==> unchanged(dev)
    {
      status := dev.Stop();
    }

    /** `encode_internal_`: one encode round. */
    method EncodeInternal(srcSize: nat, d: DriverScript) returns (status: Status, encodedSize: Option<nat>)
      requires Valid() && dev.initialized
      modifies dev, dev.inputBuffer.elements, dev.outputBuffer.elements
      ensures Valid() && dev.initialized
      ensures dev.inputBuffer == old(dev.inputBuffer) && dev.outputBuffer == old(dev.outputBuffer) && dev.fd == old(dev.fd)
      ensures var r := Encode(COMPONENT_CLAIMS, old(dev.Snapshot()), srcSize, d);
        status == r.status && encodedSize == r.encodedSize && dev.Snapshot() == r.after
    {
      status, encodedSize := dev.EncodeRound(COMPONENT_CLAIMS, srcSize, d);
    }

    /** `encode_frame`: FAIL when not initialised, INVALID_ARG when the
        source or either destination pointer is null. */
    method EncodeFrame(srcPresent: bool, dstPresent: bool, sizePresent: bool, srcSize: nat, d: DriverScript)
      returns (status: Status, encodedSize: Option<nat>)
      requires Valid()
      modifies dev, dev.ElementArrays()
      ensures Valid()
      ensures !old(dev.initialized) ==> status == Fail && unchanged(dev)
      ensures old(dev.initialized) && !(srcPresent && dstPresent && sizePresent) ==>
        status == ErrInvalidArg && unchanged(dev) && unchanged(dev.inputBuffer.elements, dev.outputBuffer.elements)
      ensures old(dev.initialized) && srcPresent && dstPresent && sizePresent ==>
        dev.initialized &&
        var r := Encode(COMPONENT_CLAIMS, old(dev.Snapshot()), srcSize, d);
        status == r.status && encodedSize == r.encodedSize && dev.Snapshot() == r.after
      ensures status != Ok ==> encodedSize == None
      ensures dev.fd == old(dev.fd) && dev.inputBuffer == old(dev.inputBuffer) &&
        dev.outputBuffer == old(dev.outputBuffer)
    {
      if !dev.initialized {
        return Fail, None;
      }
      if !(srcPresent && dstPresent && sizePresent) {
        return ErrInvalidArg, None;
      }
      status, encodedSize := EncodeInternal(srcSize, d);
    }

    /** `encode_frame_with_buffer`: FAIL when not initialised or given no
        element; otherwise encodes the element's valid bytes. */
    method EncodeFrameWithBuffer(input: Option<Element>, d: DriverScript)
      returns (status: Status, encodedSize: Option<nat>)
      requires Valid()
      modifies dev, dev.ElementArrays()
      ensures Valid()
      ensures (!old(dev.initialized) || input == None) ==> status == Fail && unchanged(dev)
      ensures old(dev.initialized) && input == None ==>
        unchanged(dev.inputBuffer.elements, dev.outputBuffer.elements)
      ensures old(dev.initialized) && input != None ==>
        dev.initialized &&
        var r := Encode(COMPONENT_CLAIMS, old(dev.Snapshot()), input.value.validSize, d);
        status == r.status && encodedSize == r.encodedSize && dev.Snapshot() == r.after
      ensures status != Ok ==> encodedSize == None
      ensures dev.fd == old(dev.fd) && dev.inputBuffer == old(dev.inputBuffer) &&
        dev.outputBuffer == old(dev.outputBuffer)
    {
      if !dev.initialized || input == None {
        return Fail, None;
      }
      status, encodedSize := EncodeInternal(input.value.validSize, d);
    }
  }
}
