/** The buffer bookkeeping of `app_video.c`: handing the capture device its
    frame buffers (driver-mapped or caller-supplied), copying the buffer
    table back out, and the frame size. */
module AppVideo {
  import opened Common
  import opened Mman

  const MAX_BUFFER_COUNT: nat := 6
  const MIN_BUFFER_COUNT: nat := 2

  /** `V4L2_MEMORY_MMAP` and `V4L2_MEMORY_USERPTR`. */
  const MEMORY_MMAP: nat := 1
  const MEMORY_USERPTR: nat := 2

  /** The buffer counts both `set_bufs` and `get_bufs` accept. */
  predicate CountInRange(n: int)
  {
    MIN_BUFFER_COUNT <= n <= MAX_BUFFER_COUNT
  }

  /** The driver's answers while buffer `i` is set up: whether
      `VIDIOC_QUERYBUF` succeeds and the length and offset it reports, what
      the heap gives `mmap` (NULL on failure), and whether `VIDIOC_QBUF`
      succeeds. */
  datatype BufStep = BufStep(queryOk: bool, length: nat, offset: int, alloc: nat, qbufOk: bool)

  /** A caller-supplied buffer is accepted when it is queried, non-null and
      queued. */
  predicate UserptrStepOk(fb: nat, st: BufStep)
  {
    st.queryOk && fb != NULL && st.qbufOk
  }

  /** A driver-mapped buffer is accepted when it is queried, the heap
      allocation behind `mmap` succeeds and it is queued. */
  predicate MmapStepOk(st: BufStep)
  {
    st.queryOk && st.alloc != NULL && st.qbufOk
  }

  // ---- the mapping check ----

  /** The test `set_bufs` applies to what `mmap` returned: non-NULL. */
  predicate MappingAcceptedAsWritten(ret: nat)
  {
    ret != NULL
  }

  /** The test `mmap`'s own failure value calls for: not `MAP_FAILED`. */
  predicate MappingAccepted(ret: nat)
  {
    ret != MAP_FAILED
  }

  /** The shim reports a failed allocation as `MAP_FAILED`, which is not
      NULL: the test as written accepts it, so `set_bufs` stores
      `MAP_FAILED` as a frame buffer. */
  lemma AsWrittenAcceptsFailedMapping(t: seq<MmapEntry>, length: nat, fd: int, offset: int)
    ensures var o := MmapSpec(t, length, fd, offset, NULL);
      o.err == Some(ENOMEM) && o.ret == MAP_FAILED && MappingAcceptedAsWritten(o.ret)
  {
  }

  /** The same happens with a full mapping table, whatever the heap does. */
  lemma AsWrittenAcceptsFullTable(t: seq<MmapEntry>, length: nat, fd: int, offset: int, alloc: nat)
    requires alloc != MAP_FAILED && FreeSlots(t) == 0
    ensures var o := MmapSpec(t, length, fd, offset, alloc);
      o.err == Some(ENOMEM) && MappingAcceptedAsWritten(o.ret)
  {
    FullTableRefuses(t, length, fd, offset, alloc);
  }

  /** With the corrected test a mapping is accepted exactly when `mmap`
      succeeded, and an accepted address is a real, recorded mapping. */
  lemma AcceptedMappingIsRecorded(t: seq<MmapEntry>, length: nat, fd: int, offset: int, alloc: nat)
    requires alloc != MAP_FAILED
    ensures var o := MmapSpec(t, length, fd, offset, alloc);
      (MappingAccepted(o.ret) <==> o.err.None?) &&
      (MappingAccepted(o.ret) ==>
        o.ret == alloc && o.ret != NULL && Mapped(o.table) == Mapped(t) + {o.ret})
  {
    MmapAccounting(t, length, fd, offset, alloc);
  }

  /** The index of the first NULL among the first `n` entries of `s`, or `n`. */
  function FirstNull(s: seq<nat>, n: nat): (k: nat)
    requires n <= |s|
    ensures k <= n
    ensures forall j :: 0 <= j < k ==> s[j] != NULL
    ensures k < n ==> s[k] == NULL
  {
    if n == 0 then 0
    else
      var k := FirstNull(s, n - 1);
      if k < n - 1 then k else if s[n - 1] == NULL then n - 1 else n
  }

  /** The module's static `app_camera_video`. */
  class AppVideoState {
    const cameraBuffer: array<nat>
    var cameraBufSize: nat
    var cameraBufHes: U32
    var cameraBufVes: U32
    var memMode: nat

    predicate Valid()
    {
      cameraBuffer.Length == MAX_BUFFER_COUNT
    }

    /** Zero-initialised static storage. */
    constructor()
      ensures Valid() && fresh(cameraBuffer)
      ensures forall i :: 0 <= i < MAX_BUFFER_COUNT ==> cameraBuffer[i] == NULL
      ensures cameraBufSize == 0 && cameraBufHes == 0 && cameraBufVes == 0 && memMode == 0
    {
      cameraBuffer := new nat[MAX_BUFFER_COUNT](_ => NULL);
      cameraBufSize := 0;
      cameraBufHes := 0;
      cameraBufVes := 0;
      memMode := 0;
    }

    /** `app_video_set_bufs(video_fd, fb_num, fb)`: reject a count outside
        [2, 6] before touching anything; record the memory mode (USERPTR
        when the caller passes buffers, MMAP otherwise); request the
        buffers; then, for each index in order, query it, map it (MMAP) or
        take the caller's pointer (USERPTR), record it and its length, and
        queue it. Any failure after the count check closes the descriptor
        (`closed`). The MMAP branch uses the corrected mapping test. */
    method SetBufs(videoFd: int, fbNum: U32, fb: Option<seq<nat>>, reqbufsOk: bool, steps: seq<BufStep>, mm: MmapTable)
      returns (status: Status, closed: bool)
      requires Valid() && mm.Valid()
      requires |steps| == MAX_BUFFER_COUNT
      requires forall i :: 0 <= i < |steps| ==> steps[i].alloc != MAP_FAILED
      requires fb != None && CountInRange(fbNum) ==> |fb.value| >= fbNum
      modifies this, cameraBuffer, mm, mm.entries
      ensures Valid() && mm.Valid()
      ensures status == Ok || status == Fail
      ensures !CountInRange(fbNum) ==>
        status == Fail && !closed && unchanged(this, cameraBuffer, mm, mm.entries)
      ensures CountInRange(fbNum) ==>
        (closed <==> status == Fail) &&
        memMode == (if fb != None then MEMORY_USERPTR else MEMORY_MMAP)
      ensures CountInRange(fbNum) && fb != None ==>
        (status == Ok <==> reqbufsOk && forall i :: 0 <= i < fbNum ==> UserptrStepOk(fb.value[i], steps[i])) &&
        unchanged(mm, mm.entries)
      ensures CountInRange(fbNum) && fb == None ==>
        (status == Ok <==>
          reqbufsOk && FreeSlots(old(mm.entries[..])) >= fbNum &&
          forall i :: 0 <= i < fbNum ==> MmapStepOk(steps[i]))
      ensures status == Ok && fb != None ==> cameraBuffer[..fbNum] == fb.value[..fbNum]
      ensures status == Ok && fb == None ==>
        forall i :: 0 <= i < fbNum ==>
          cameraBuffer[i] != NULL && cameraBuffer[i] != MAP_FAILED && cameraBuffer[i] in Mapped(mm.entries[..])
      ensures status == Ok ==> cameraBufSize == steps[fbNum - 1].length
      ensures Mapped(old(mm.entries[..])) <= Mapped(mm.entries[..])
      ensures cameraBufHes == old(cameraBufHes) && cameraBufVes == old(cameraBufVes)
      ensures CountInRange(fbNum) ==> cameraBuffer[fbNum..] == old(cameraBuffer[fbNum..])
      ensures CountInRange(fbNum) && fb != None ==>
        forall j :: 0 <= j < fbNum ==> cameraBuffer[j] == old(cameraBuffer[j]) || cameraBuffer[j] == fb.value[j]
    {
      if fbNum > MAX_BUFFER_COUNT || fbNum < MIN_BUFFER_COUNT {
        return Fail, false;
      }
      memMode := if fb != None then MEMORY_USERPTR else MEMORY_MMAP;
      if !reqbufsOk {
        return Fail, true;
      }
      if fb == None {
        status := MapBuffers(videoFd, fbNum, steps, mm);
      } else {
        status := TakeUserBuffers(fbNum, fb.value, steps);
      }
      closed := status == Fail;
    }

    /** The buffer loop of `set_bufs` in MMAP mode: for each index in
        order, query it, map it, record the mapping (whatever `mmap`
        returned) and its length, and queue it; stop with FAIL at the first
        failure. The mapping is refused when `mmap` returns `MAP_FAILED`. */
    method MapBuffers(videoFd: int, fbNum: U32, steps: seq<BufStep>, mm: MmapTable) returns (status: Status)
      requires Valid() && mm.Valid() && CountInRange(fbNum)
      requires |steps| == MAX_BUFFER_COUNT
      requires forall i :: 0 <= i < |steps| ==> steps[i].alloc != MAP_FAILED
      modifies this, cameraBuffer, mm, mm.entries
      ensures Valid() && mm.Valid()
      ensures status == Ok || status == Fail
      ensures status == Ok <==>
        FreeSlots(old(mm.entries[..])) >= fbNum && forall i :: 0 <= i < fbNum ==> MmapStepOk(steps[i])
      ensures status == Ok ==>
        forall i :: 0 <= i < fbNum ==>
          cameraBuffer[i] != NULL && cameraBuffer[i] != MAP_FAILED && cameraBuffer[i] in Mapped(mm.entries[..])
      ensures status == Ok ==> cameraBufSize == steps[fbNum - 1].length
      ensures Mapped(old(mm.entries[..])) <= Mapped(mm.entries[..])
      ensures memMode == old(memMode) && cameraBufHes == old(cameraBufHes) && cameraBufVes == old(cameraBufVes)
      ensures cameraBuffer[fbNum..] == old(cameraBuffer[fbNum..])
    {
      var i := 0;
      while i < fbNum
        invariant 0 <= i <= fbNum
        invariant Valid() && mm.Valid()
        invariant forall j :: 0 <= j < i ==> MmapStepOk(steps[j])
        invariant FreeSlots(mm.entries[..]) + i == FreeSlots(old(mm.entries[..]))
        invariant forall j :: 0 <= j < i ==>
          cameraBuffer[j] != NULL && cameraBuffer[j] != MAP_FAILED && cameraBuffer[j] in Mapped(mm.entries[..])
        invariant i > 0 ==> cameraBufSize == steps[i - 1].length
        invariant Mapped(old(mm.entries[..])) <= Mapped(mm.entries[..])
        invariant memMode == old(memMode) && cameraBufHes == old(cameraBufHes) && cameraBufVes == old(cameraBufVes)
        invariant cameraBuffer[fbNum..] == old(cameraBuffer[fbNum..])
      {
        var st := steps[i];
        if !st.queryOk {
          return Fail;
        }
        ghost var before := mm.entries[..];
        var addr := mm.Mmap(st.length, videoFd, st.offset, st.alloc);
        AcceptedMappingIsRecorded(before, st.length, videoFd, st.offset, st.alloc);
        MmapAccounting(before, st.length, videoFd, st.offset, st.alloc);
        FreeSlotsPositive(before);
        cameraBuffer[i] := addr;
        if !MappingAccepted(addr) {
          return Fail;
        }
        cameraBufSize := st.length;
        if !st.qbufOk {
          return Fail;
        }
        i := i + 1;
      }
      status := Ok;
    }

    /** The buffer loop of `set_bufs` in USERPTR mode: for each index in
        order, query it, refuse a NULL pointer, record the caller's pointer
        and the length, and queue it; stop with FAIL at the first failure. */
    method TakeUserBuffers(fbNum: U32, fb: seq<nat>, steps: seq<BufStep>) returns (status: Status)
      requires Valid() && CountInRange(fbNum)
      requires |steps| == MAX_BUFFER_COUNT && |fb| >= fbNum
      modifies this, cameraBuffer
      ensures Valid()
      ensures status == Ok || status == Fail
      ensures status == Ok <==> forall i :: 0 <= i < fbNum ==> UserptrStepOk(fb[i], steps[i])
      ensures status == Ok ==> cameraBuffer[..fbNum] == fb[..fbNum]
      ensures status == Ok ==> cameraBufSize == steps[fbNum - 1].length
      ensures forall j :: 0 <= j < fbNum ==> cameraBuffer[j] == old(cameraBuffer[j]) || cameraBuffer[j] == fb[j]
      ensures memMode == old(memMode) && cameraBufHes == old(cameraBufHes) && cameraBufVes == old(cameraBufVes)
      ensures cameraBuffer[fbNum..] == old(cameraBuffer[fbNum..])
    {
      var i := 0;
      while i < fbNum
        invariant 0 <= i <= fbNum
        invariant Valid()
        invariant forall j :: 0 <= j < i ==> UserptrStepOk(fb[j], steps[j])
        invariant forall j :: 0 <= j < i ==> cameraBuffer[j] == fb[j]
        invariant forall j :: i <= j < cameraBuffer.Length ==> cameraBuffer[j] == old(cameraBuffer[j])
        invariant i > 0 ==> cameraBufSize == steps[i - 1].length
        invariant memMode == old(memMode) && cameraBufHes == old(cameraBufHes) && cameraBufVes == old(cameraBufVes)
      {
        var st := steps[i];
        if !st.queryOk {
          return Fail;
        }
        if fb[i] == NULL {
          return Fail;
        }
        cameraBuffer[i] := fb[i];
        cameraBufSize := st.length;
        if !st.qbufOk {
          return Fail;
        }
        i := i + 1;
      }
      assert cameraBuffer[..fbNum] == fb[..fbNum];
      status := Ok;
    }

    /** `app_video_get_bufs(fb_num, fb)`: reject a count outside [2, 6];
        otherwise copy the table into `fb` in index order, stopping with
        FAIL at the first NULL entry (the entries before it are already
        written). */
    method GetBufs(fbNum: int, fb: array<nat>) returns (status: Status)
      requires Valid() && fb != cameraBuffer
      requires CountInRange(fbNum) ==> fb.Length >= fbNum
      modifies fb
      ensures !CountInRange(fbNum) ==> status == Fail && unchanged(fb)
      ensures CountInRange(fbNum) ==>
        var k := FirstNull(cameraBuffer[..], fbNum);
        (status == Ok <==> k == fbNum) && (status == Ok || status == Fail) &&
        fb[..k] == cameraBuffer[..k] && fb[k..] == old(fb[k..])
    {
      if fbNum > MAX_BUFFER_COUNT as int || fbNum < MIN_BUFFER_COUNT as int {
        return Fail;
      }
      var i := 0;
      while i < fbNum
        invariant 0 <= i <= fbNum
        invariant forall j :: 0 <= j < i ==> cameraBuffer[j] != NULL
        invariant fb[..i] == cameraBuffer[..i] && fb[i..] == old(fb[i..])
      {
        if cameraBuffer[i] == NULL {
          assert FirstNull(cameraBuffer[..], fbNum) == i;
          return Fail;
        }
        fb[i] := cameraBuffer[i];
        i := i + 1;
      }
      assert FirstNull(cameraBuffer[..], fbNum) == fbNum;
      status := Ok;
    }

    /** `app_video_get_buf_size()`: width x height x bytes per pixel (2 for
        RGB565, 3 otherwise) in `uint32_t` arithmetic; the format is the
        build-time `APP_VIDEO_FMT`. */
    function GetBufSize(rgb565: bool): (n: U32)
      reads this
      ensures cameraBufHes * cameraBufVes * 3 < TWO_POW_32 ==>
        n == cameraBufHes * cameraBufVes * (if rgb565 then 2 else 3)
    {
      Mul32(Mul32(cameraBufHes, cameraBufVes), if rgb565 then 2 else 3)
    }
  }
}
