/** The device session that the four hardware-encoder wrappers (the
    `h264` and `jpeg` components and the two encoders of `mipi_dsi_cam`)
    each carry: an M2M video device file descriptor, an input pool of raw
    frames and an output pool of encoded frames, and the two "stream on"
    flags. All four wrappers repeat the same open/allocate/configure
    sequence, the same teardown and the same queue-encode-dequeue round;
    this module states that shared behaviour once.

    Every ioctl and allocation is an oracle: `InitScript` says which of the
    set-up steps succeed, `DriverScript` which of the steps of one encode. */
module CodecSession {
  import opened Common
  import opened VideoBuffers

  /** The camera geometry an encoder reads when it opens its device. */
  datatype CameraInfo = CameraInfo(width: U32, height: U32)

  /** Number of elements in each pool (`buffer_info.count = 3`). */
  const POOL_COUNT: nat := 3

  /** Raw input frame size: width x height x 2 bytes of RGB565, in
      `uint32_t` arithmetic. */
  function InputSize(cam: CameraInfo): (n: U32)
    ensures cam.width * cam.height * 2 < TWO_POW_32 ==> n == cam.width * cam.height * 2
  {
    Mul32(Mul32(cam.width, cam.height), 2)
  }

  /** Encoded output buffer size: width x height bytes. */
  function OutputSize(cam: CameraInfo): (n: U32)
    ensures cam.width * cam.height < TWO_POW_32 ==> n == cam.width * cam.height
  {
    Mul32(cam.width, cam.height)
  }

  // ---- set-up ----

  /** Outcomes of the set-up steps: the descriptor `open` returns (negative
      on failure), the two pool allocations, the two `VIDIOC_S_FMT` and the
      two `VIDIOC_REQBUFS` calls. `VIDIOC_S_PARM` and `VIDIOC_S_CTRL` are
      best-effort and have no outcome here. */
  datatype InitScript = InitScript(
    openFd: int,
    inputCreateOk: bool, outputCreateOk: bool,
    sFmtInOk: bool, sFmtOutOk: bool,
    reqbufsInOk: bool, reqbufsOutOk: bool)

  /** The status the set-up sequence returns. */
  function StartStatus(s: InitScript): (r: Status)
    ensures r == Ok <==>
      s.openFd >= 0 && s.inputCreateOk && s.outputCreateOk &&
      s.sFmtInOk && s.sFmtOutOk && s.reqbufsInOk && s.reqbufsOutOk
    ensures r == ErrNoMem <==> s.openFd >= 0 && !(s.inputCreateOk && s.outputCreateOk)
    ensures r in {Ok, Fail, ErrNoMem}
  {
    if s.openFd < 0 then Fail
    else if !s.inputCreateOk || !s.outputCreateOk then ErrNoMem
    else if !(s.sFmtInOk && s.sFmtOutOk && s.reqbufsInOk && s.reqbufsOutOk) then Fail
    else Ok
  }

  // ---- one encode round, as a function of the pools ----

  /** Outcomes of the steps of one encode: queueing the input and the output
      buffer, starting each stream when it is not yet on, dequeueing the
      encoded capture buffer, and the `bytesused` the driver reports. The
      input-side dequeue is only logged when it fails and has no outcome here. */
  datatype DriverScript = DriverScript(
    qbufInOk: bool, qbufOutOk: bool,
    streamOnOutOk: bool, streamOnCapOk: bool,
    dqbufCapOk: bool, bytesused: nat)

  /** The states a wrapper gives a claimed element and the encoded output
      element: `h264`/`jpeg` mark both ALLOCATED, `mipi_dsi_cam` marks the
      claims QUEUED and the encoded output ACTIVE. */
  datatype Claims = Claims(claimed: ElementState, produced: ElementState)

  const COMPONENT_CLAIMS: Claims := Claims(Allocated, Allocated)
  const MIPI_CLAIMS: Claims := Claims(Queued, Active)

  /** Neither state of a claim set is FREE. */
  predicate Owning(c: Claims)
  {
    c.claimed != Free && c.produced != Free
  }

  /** The session state one encode reads and writes. */
  datatype Pools = Pools(input: seq<Element>, output: seq<Element>, streamingOut: bool, streamingCap: bool)

  /** The status, the state afterwards and, on success, the encoded size. */
  datatype EncodeResult = EncodeResult(status: Status, after: Pools, encodedSize: Option<nat>)

  /** `ELEMENT_SET_FREE` on element `i` of `s`. */
  function Release(s: seq<Element>, i: nat): (t: seq<Element>)
    requires i < |s|
    ensures |t| == |s| && t[i].state == Free
  {
    s[i := s[i].(state := Free)]
  }

  /** `encode_internal_`: claim the first free input element (its valid
      size becomes the source size) and queue it; claim the first free
      output element and queue it; start whichever stream is off; dequeue the
      encoded buffer; release the input and mark the output `produced`
      with the driver's `bytesused`. A failed queue or dequeue releases
      every claim made so far; a failed stream start returns with the claims
      still held. */
  function Encode(c: Claims, p: Pools, srcSize: nat, d: DriverScript): (r: EncodeResult)
    ensures |r.after.input| == |p.input| && |r.after.output| == |p.output|
    ensures r.status == Ok <==>
      FirstFree(p.input) >= 0 && FirstFree(p.output) >= 0 && d.qbufInOk && d.qbufOutOk &&
      (p.streamingOut || d.streamOnOutOk) && (p.streamingCap || d.streamOnCapOk) && d.dqbufCapOk
    ensures r.status in {Ok, Fail, ErrNoMem}
    ensures r.encodedSize == (if r.status == Ok then Some(d.bytesused) else None)
  {
    var i := FirstFree(p.input);
    if i < 0 then EncodeResult(ErrNoMem, p, None)
    else
      var in1 := p.input[i := Element(c.claimed, srcSize)];
      if !d.qbufInOk then EncodeResult(Fail, p.(input := Release(in1, i)), None)
      else
        var o := FirstFree(p.output);
        if o < 0 then EncodeResult(ErrNoMem, p.(input := Release(in1, i)), None)
        else AfterClaims(c, p, i, o, srcSize, d)
  }

  /** The second half of `encode_internal_`, once input element `i` and
      output element `o` are claimed and the input is queued: queue the
      output, start the streams that are off, dequeue the encoded buffer. */
  function AfterClaims(c: Claims, p: Pools, i: nat, o: nat, srcSize: nat, d: DriverScript): (r: EncodeResult)
    requires i < |p.input| && o < |p.output|
    ensures |r.after.input| == |p.input| && |r.after.output| == |p.output|
    ensures r.status == Ok <==>
      d.qbufOutOk && (p.streamingOut || d.streamOnOutOk) && (p.streamingCap || d.streamOnCapOk) && d.dqbufCapOk
    ensures r.status in {Ok, Fail}
    ensures r.encodedSize == (if r.status == Ok then Some(d.bytesused) else None)
  {
    var in1 := p.input[i := Element(c.claimed, srcSize)];
    var out1 := p.output[o := p.output[o].(state := c.claimed)];
    if !d.qbufOutOk then
      EncodeResult(Fail, p.(input := Release(in1, i), output := Release(out1, o)), None)
    else if !p.streamingOut && !d.streamOnOutOk then
      EncodeResult(Fail, p.(input := in1, output := out1), None)
    else if !p.streamingCap && !d.streamOnCapOk then
      EncodeResult(Fail, Pools(in1, out1, true, false), None)
    else if !d.dqbufCapOk then
      EncodeResult(Fail, Pools(Release(in1, i), Release(out1, o), true, true), None)
    else
      EncodeResult(Ok, Pools(Release(in1, i), out1[o := Element(c.produced, d.bytesused)], true, true),
        Some(d.bytesused))
  }

  /** With no free input element the encode returns NO_MEM and changes
      nothing. */
  lemma NoFreeInputChangesNothing(c: Claims, p: Pools, srcSize: nat, d: DriverScript)
    requires FreeCount(p.input) == 0
    ensures Encode(c, p, srcSize, d) == EncodeResult(ErrNoMem, p, None)
  {
    FreeCountZero(p.input);
  }

  /** With a free input element but no free output element (and the input
      queued), the encode returns NO_MEM and the input element it claimed is
      FREE again, holding the source size; the output pool and the streams
      are untouched. */
  lemma NoFreeOutputReleasesInput(c: Claims, p: Pools, srcSize: nat, d: DriverScript)
    requires FirstFree(p.input) >= 0 && FirstFree(p.output) < 0 && d.qbufInOk
    ensures var r := Encode(c, p, srcSize, d);
      r.status == ErrNoMem &&
      r.after == p.(input := p.input[FirstFree(p.input) := Element(Free, srcSize)])
  {
  }

  /** The only path that keeps its claims on failure: a stream start fails
      after both buffers were queued. Both elements are left in the claimed
      state, so the input pool has one free element fewer. */
  lemma StreamOnFailureKeepsClaims(c: Claims, p: Pools, srcSize: nat, d: DriverScript)
    requires Owning(c)
    requires FirstFree(p.input) >= 0 && FirstFree(p.output) >= 0 && d.qbufInOk && d.qbufOutOk
    requires (!p.streamingOut && !d.streamOnOutOk) || (!p.streamingCap && !d.streamOnCapOk)
    ensures var r := Encode(c, p, srcSize, d);
      r.status == Fail &&
      r.after.input[FirstFree(p.input)].state == c.claimed &&
      r.after.output[FirstFree(p.output)].state == c.claimed &&
      FreeCount(r.after.input) == FreeCount(p.input) - 1 &&
      FreeCount(r.after.output) == FreeCount(p.output) - 1
  {
    var i, o := FirstFree(p.input), FirstFree(p.output);
    FreeCountUpdate(p.input, i, Element(c.claimed, srcSize));
    FreeCountUpdate(p.output, o, p.output[o].(state := c.claimed));
  }

  /** A successful encode frees the input element it used, marks the output
      element `produced` with the driver's byte count, reports that count,
      leaves both streams on, and touches no other element. */
  lemma EncodeSuccessShape(c: Claims, p: Pools, srcSize: nat, d: DriverScript)
    requires Encode(c, p, srcSize, d).status == Ok
    ensures var r := Encode(c, p, srcSize, d);
      var i, o := FirstFree(p.input), FirstFree(p.output);
      r.after.input == p.input[i := Element(Free, srcSize)] &&
      r.after.output == p.output[o := Element(c.produced, d.bytesused)] &&
      r.encodedSize == Some(d.bytesused) &&
      r.after.streamingOut && r.after.streamingCap
  {
  }

  /** Except for a failed stream start, the input pool ends with exactly the
      free elements it started with. */
  lemma InputFreeCountRestored(c: Claims, p: Pools, srcSize: nat, d: DriverScript)
    requires !((!p.streamingOut && !d.streamOnOutOk) || (!p.streamingCap && !d.streamOnCapOk))
    ensures FreeCount(Encode(c, p, srcSize, d).after.input) == FreeCount(p.input)
  {
    var i := FirstFree(p.input);
    if i >= 0 {
      var in1 := p.input[i := Element(c.claimed, srcSize)];
      FreeCountUpdate(p.input, i, Element(c.claimed, srcSize));
      FreeCountUpdate(in1, i, in1[i].(state := Free));
    }
  }

  /** A failed queue or a failed dequeue releases every claim made so far:
      the encode returns FAIL and both pools end with exactly the free
      elements they started with. */
  lemma QueueFailureReleasesClaims(c: Claims, p: Pools, srcSize: nat, d: DriverScript)
    requires FirstFree(p.input) >= 0
    requires !d.qbufInOk || (FirstFree(p.output) >= 0 &&
      (!d.qbufOutOk || ((p.streamingOut || d.streamOnOutOk) && (p.streamingCap || d.streamOnCapOk) && !d.dqbufCapOk)))
    ensures var r := Encode(c, p, srcSize, d);
      r.status == Fail &&
      FreeCount(r.after.input) == FreeCount(p.input) &&
      FreeCount(r.after.output) == FreeCount(p.output)
  {
    var i := FirstFree(p.input);
    var in1 := p.input[i := Element(c.claimed, srcSize)];
    FreeCountUpdate(p.input, i, Element(c.claimed, srcSize));
    FreeCountUpdate(in1, i, in1[i].(state := Free));
    if d.qbufInOk {
      var o := FirstFree(p.output);
      var out1 := p.output[o := p.output[o].(state := c.claimed)];
      FreeCountUpdate(p.output, o, out1[o]);
      FreeCountUpdate(out1, o, out1[o].(state := Free));
    }
  }

  /** No encode ever gives an output element back: the output pool's free
      count never grows, and each success takes one element out of it for
      good (the wrappers never release an encoded output). */
  lemma OutputNeverReleased(c: Claims, p: Pools, srcSize: nat, d: DriverScript)
    requires Owning(c)
    ensures var r := Encode(c, p, srcSize, d);
      FreeCount(r.after.output) <= FreeCount(p.output) &&
      (r.status == Ok ==> FreeCount(r.after.output) == FreeCount(p.output) - 1)
  {
    var i, o := FirstFree(p.input), FirstFree(p.output);
    if i >= 0 && d.qbufInOk && o >= 0 {
      var out1 := p.output[o := p.output[o].(state := c.claimed)];
      FreeCountUpdate(p.output, o, out1[o]);
      FreeCountUpdate(out1, o, out1[o].(state := Free));
      FreeCountUpdate(out1, o, Element(c.produced, d.bytesused));
    }
  }

  /** A sequence of encodes, each with its own source size and driver
      outcomes, from pools `p`: the final state and the number of successes. */
  function Run(c: Claims, p: Pools, jobs: seq<(nat, DriverScript)>): (r: (Pools, nat))
    ensures |r.0.output| == |p.output| && r.1 <= |jobs|
    decreases |jobs|
  {
    if |jobs| == 0 then (p, 0)
    else
      var e := Encode(c, p, jobs[0].0, jobs[0].1);
      var rest := Run(c, e.after, jobs[1..]);
      (rest.0, rest.1 + (if e.status == Ok then 1 else 0))
  }

  /** Output elements leak: however the driver behaves, a run never has more
      successes than the output pool had free elements, and those successes
      used them up. */
  lemma {:induction false} RunSuccessesBounded(c: Claims, p: Pools, jobs: seq<(nat, DriverScript)>)
    requires Owning(c)
    ensures Run(c, p, jobs).1 + FreeCount(Run(c, p, jobs).0.output) <= FreeCount(p.output)
    decreases |jobs|
  {
    if |jobs| > 0 {
      var e := Encode(c, p, jobs[0].0, jobs[0].1);
      OutputNeverReleased(c, p, jobs[0].0, jobs[0].1);
      RunSuccessesBounded(c, e.after, jobs[1..]);
    }
  }

  /** Once the output pool is used up, no encode succeeds again; with a free
      input element that queues, every encode returns NO_MEM. */
  lemma ExhaustedOutputRefuses(c: Claims, p: Pools, srcSize: nat, d: DriverScript)
    requires FreeCount(p.output) == 0
    ensures Encode(c, p, srcSize, d).status != Ok
    ensures FirstFree(p.input) >= 0 && d.qbufInOk ==> Encode(c, p, srcSize, d).status == ErrNoMem
  {
    FreeCountZero(p.output);
  }

  /** On fresh three-element pools with streams off, three successful encodes
      leave the output pool empty, and the fourth returns NO_MEM whatever
      the driver does once the input is queued. */
  lemma FourthEncodeRefused(c: Claims, jobs: seq<(nat, DriverScript)>, srcSize: nat, d: DriverScript)
    requires Owning(c) && d.qbufInOk
    requires Run(c, Pools(FreshElements(POOL_COUNT), FreshElements(POOL_COUNT), false, false), jobs).1 == POOL_COUNT
    ensures var p := Run(c, Pools(FreshElements(POOL_COUNT), FreshElements(POOL_COUNT), false, false), jobs).0;
      FreeCount(p.output) == 0 &&
      (FirstFree(p.input) >= 0 ==> Encode(c, p, srcSize, d).status == ErrNoMem)
  {
    var p0 := Pools(FreshElements(POOL_COUNT), FreshElements(POOL_COUNT), false, false);
    RunSuccessesBounded(c, p0, jobs);
    ExhaustedOutputRefuses(c, Run(c, p0, jobs).0, srcSize, d);
  }

  // ---- group-of-pictures cadence ----

  /** The I-frame test of the H.264 wrappers: frame number `frameCount` opens
      a group of pictures when it is a multiple of `max(1, gopSize)`. */
  function IsKeyframe(frameCount: U32, gopSize: U32): (k: bool)
    ensures frameCount == 0 ==> k
    ensures gopSize <= 1 ==> k
  {
    frameCount % AtLeastOne(gopSize) == 0
  }

  /** A non-zero multiple of `g` is at least `g` away from zero. */
  lemma MultipleAwayFromZero(a: int, g: int)
    requires g > 0
    ensures a >= 1 ==> a * g >= g
    ensures a <= -1 ==> a * g <= -g
  {
    if a >= 1 {
      assert a * g == (a - 1) * g + g;
    } else if a <= -1 {
      assert a * g == (a + 1) * g - g;
    }
  }

  /** Euclidean division is unique: a quotient and an in-range remainder
      that rebuild `x` are `x / g` and `x % g`. */
  lemma DivModUnique(x: int, g: int, q: int, r: int)
    requires g > 0 && 0 <= r < g && x == q * g + r
    ensures x % g == r
  {
    assert (q - x / g) * g == x % g - r;
    MultipleAwayFromZero(q - x / g, g);
  }

  /** Within the `k`-th group of `g` frames exactly the first is a key frame. */
  lemma KeyframeCadence(k: nat, j: nat, g: U32)
    requires 1 <= g && j < g && k * g + j < TWO_POW_32
    ensures IsKeyframe(k * g + j, g) <==> j == 0
  {
    DivModUnique(k * g + j, g, k, j);
  }

  // ---- the session object ----

  /** The device half of an encoder wrapper: `*_fd_`, `initialized_`,
      `input_buffer_`, `output_buffer_`, `streaming_started_out_` and
      `streaming_started_cap_`. */
  class CodecDevice {
    var fd: int
    var initialized: bool
    var inputBuffer: VideoBuffer?
    var outputBuffer: VideoBuffer?
    var streamingOut: bool
    var streamingCap: bool

    /** An initialised session owns an open descriptor and two distinct
        pools; an uninitialised one owns neither and has both streams off. */
    predicate Valid()
      reads this
    {
      (initialized <==> fd >= 0) &&
      (initialized <==> inputBuffer != null) &&
      (initialized <==> outputBuffer != null) &&
      (initialized ==>
        inputBuffer.Valid() && outputBuffer.Valid() &&
        inputBuffer.elements != outputBuffer.elements) &&
      (!initialized ==> !streamingOut && !streamingCap)
    }

    /** The element arrays of the pools the session holds. */
    function ElementArrays(): set<object>
      reads this
    {
      (if inputBuffer != null then {inputBuffer.elements} else {}) +
      (if outputBuffer != null then {outputBuffer.elements} else {})
    }

    /** The pools and stream flags, as values. */
    function Snapshot(): Pools
      requires Valid() && initialized
      reads this, inputBuffer.elements, outputBuffer.elements
    {
      Pools(inputBuffer.elements[..], outputBuffer.elements[..], streamingOut, streamingCap)
    }

    /** The wrappers' field defaults: fd -1, nothing allocated. */
    constructor()
      ensures Valid() && !initialized && fd == -1
      ensures inputBuffer == null && outputBuffer == null
    {
      fd := -1;
      initialized := false;
      inputBuffer := null;
      outputBuffer := null;
      streamingOut := false;
      streamingCap := false;
    }

    /** The set-up sequence after the "already initialised" test: open the
        device, create the input pool (3 x RGB565 frame) and the output pool
        (3 x width*height), set both formats and request both buffer sets.
        A failed open leaves its negative result in `fd`; every later failure
        frees what was allocated and resets `fd` to -1. */
    method Start(cam: CameraInfo, s: InitScript) returns (status: Status)
      requires Valid() && !initialized
      modifies this
      ensures Valid()
      ensures status == StartStatus(s)
      ensures initialized <==> status == Ok
      ensures status == Ok ==>
        fd == s.openFd && !streamingOut && !streamingCap &&
        fresh(inputBuffer) && fresh(outputBuffer) &&
        fresh(inputBuffer.elements) && fresh(outputBuffer.elements) &&
        inputBuffer.count == POOL_COUNT && inputBuffer.size == InputSize(cam) &&
        outputBuffer.count == POOL_COUNT && outputBuffer.size == OutputSize(cam) &&
        inputBuffer.elements[..] == FreshElements(POOL_COUNT) &&
        outputBuffer.elements[..] == FreshElements(POOL_COUNT)
      ensures status != Ok ==>
        inputBuffer == null && outputBuffer == null &&
        fd == (if s.openFd < 0 then s.openFd else -1)
    {
      fd := s.openFd;
      if fd < 0 {
        return Fail;
      }
      if !s.inputCreateOk {
        fd := -1;
        return ErrNoMem;
      }
      var inBuf := new VideoBuffer(POOL_COUNT, InputSize(cam));
      if !s.outputCreateOk {
        fd := -1;
        return ErrNoMem;
      }
      var outBuf := new VideoBuffer(POOL_COUNT, OutputSize(cam));
      if !(s.sFmtInOk && s.sFmtOutOk && s.reqbufsInOk && s.reqbufsOutOk) {
        fd := -1;
        return Fail;
      }
      inputBuffer := inBuf;
      outputBuffer := outBuf;
      streamingOut := false;
      streamingCap := false;
      initialized := true;
      status := Ok;
    }

    /** Teardown: nothing when uninitialised; otherwise stop the streams
        that are on, free both pools, close the descriptor. */
    method Stop() returns (status: Status)
      requires Valid()
      modifies this
      ensures Valid() && status == Ok
      ensures !initialized && inputBuffer == null && outputBuffer == null
      ensures !streamingOut && !streamingCap
      ensures old(initialized) ==> fd == -1
      ensures !old(initialized) ==> unchanged(this)
    {
      if !initialized {
        return Ok;
      }
      streamingOut := false;
      streamingCap := false;
      inputBuffer := null;
      outputBuffer := null;
      fd := -1;
      initialized := false;
      status := Ok;
    }

    /** Whether a setter's best-effort `VIDIOC_S_CTRL` is issued: only on an
        initialised session with an open descriptor. */
    function ControlsReachDevice(): (sent: bool)
      requires Valid()
      reads this
      ensures sent <==> initialized
    {
      initialized && fd >= 0
    }

    /** One encode round on the session's pools, as `Encode` states it. */
    method EncodeRound(c: Claims, srcSize: nat, d: DriverScript) returns (status: Status, encodedSize: Option<nat>)
      requires Valid() && initialized
      modifies this, inputBuffer.elements, outputBuffer.elements
      ensures Valid() && initialized
      ensures inputBuffer == old(inputBuffer) && outputBuffer == old(outputBuffer) && fd == old(fd)
      ensures var r := Encode(c, old(Snapshot()), srcSize, d);
        status == r.status && encodedSize == r.encodedSize && Snapshot() == r.after
    {
      ghost var p := Snapshot();
      encodedSize := None;
      var i := inputBuffer.Claim(c.claimed);
      if i < 0 {
        return ErrNoMem, None;
      }
      inputBuffer.SetValidSize(i, srcSize);
      if !d.qbufInOk {
        inputBuffer.SetState(i, Free);
        return Fail, None;
      }
      var o := outputBuffer.Claim(c.claimed);
      if o < 0 {
        inputBuffer.SetState(i, Free);
        return ErrNoMem, None;
      }
      status, encodedSize := FinishRound(c, p, i, o, srcSize, d);
    }

    /** The rest of the round once both elements are claimed and the input
        is queued. */
    method FinishRound(c: Claims, ghost p: Pools, i: nat, o: nat, srcSize: nat, d: DriverScript)
      returns (status: Status, encodedSize: Option<nat>)
      requires Valid() && initialized
      requires i < |p.input| && o < |p.output|
      requires Snapshot() ==
        p.(input := p.input[i := Element(c.claimed, srcSize)], output := p.output[o := p.output[o].(state := c.claimed)])
      modifies this, inputBuffer.elements, outputBuffer.elements
      ensures Valid() && initialized
      ensures inputBuffer == old(inputBuffer) && outputBuffer == old(outputBuffer) && fd == old(fd)
      ensures var r := AfterClaims(c, p, i, o, srcSize, d);
        status == r.status && encodedSize == r.encodedSize && Snapshot() == r.after
    {
      assert inputBuffer.elements[..] == Snapshot().input && outputBuffer.elements[..] == Snapshot().output;
      assert |Snapshot().output| == |p.output[o := p.output[o].(state := c.claimed)]| == |p.output|;
      assert i < inputBuffer.count && o < outputBuffer.count;
      encodedSize := None;
      if !d.qbufOutOk {
        inputBuffer.SetState(i, Free);
        outputBuffer.SetState(o, Free);
        return Fail, None;
      }
      if !streamingOut {
        if !d.streamOnOutOk {
          return Fail, None;
        }
        streamingOut := true;
      }
      if !streamingCap {
        if !d.streamOnCapOk {
          return Fail, None;
        }
        streamingCap := true;
      }
      if !d.dqbufCapOk {
        inputBuffer.SetState(i, Free);
        outputBuffer.SetState(o, Free);
        return Fail, None;
      }
      outputBuffer.elements[o] := Element(c.produced, d.bytesused);
      inputBuffer.SetState(i, Free);
      status, encodedSize := Ok, Some(d.bytesused);
    }
  }
}
