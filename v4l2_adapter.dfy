/** The V4L2 capture-buffer ring of `MipiDsiCamV4L2Adapter`: a pool of up
    to 8 frame buffers, each either free (owned by the application) or
    queued (owned by the driver), and a FIFO of queued buffer indices kept
    in the array `queue_order` between `queue_head` and `queue_tail`.

    The buffer pool (`esp_video_buffer`) is modelled by the flag
    `hasBuffers`, its element size and a sequence of elements; its creation,
    which may fail, is an oracle parameter, and its `reset` is taken to mark
    every element free. The camera's `capture_frame` and `get_image_data`
    are oracle parameters too. */
module V4l2Adapter {
  import opened Common
  import V4l2Macros

  const BUF_TYPE_VIDEO_CAPTURE: U32 := 1
  const MEMORY_MMAP: U32 := 1
  const BUF_FLAG_QUEUED: U32 := 0x0000_0002
  const BUF_FLAG_DONE: U32 := 0x0000_0004
  const BUF_FLAG_TIMESTAMP_MONOTONIC: U32 := 0x0000_2000
  /** `V4L2_BUF_FLAG_DONE | V4L2_BUF_FLAG_TIMESTAMP_MONOTONIC` (disjoint bits). */
  const DQBUF_FLAGS: U32 := BUF_FLAG_DONE + BUF_FLAG_TIMESTAMP_MONOTONIC
  /** The most buffers `reqbufs` will create. */
  const MAX_BUFFERS: nat := 8

  /** One `esp_video_buffer_element`: its free flag and `valid_size`. */
  datatype Element = Element(free: bool, validSize: nat)

  /** What `dqbuf` fills into the caller's `struct v4l2_buffer`. */
  datatype DequeuedBuffer = DequeuedBuffer(
    index: nat, bytesused: nat, flags: U32, offset: nat, length: nat, sequence: U32)

  // ---- the ring as values ----

  /** The position `j` places after `head` in a ring of `n` slots:
      `(head + j) mod n`, written without `%`. */
  function Slot(head: nat, j: nat, n: nat): (s: nat)
    requires head < n && j <= n
    ensures s < n
    ensures head + j < n ==> s == head + j
    ensures head + j >= n ==> s == head + j - n
  {
    if head + j < n then head + j else head + j - n
  }

  /** The slot after `t`: `(t + 1) % n` for `t < n`. */
  lemma NextSlot(t: nat, n: nat)
    requires t < n
    ensures (t + 1) % n == Slot(t, 1, n) % n
    ensures (t + 1) % n == (if t + 1 < n then t + 1 else 0)
  {
    if t + 1 == n {
      assert (t + 1) % n == 0;
    } else {
      assert (t + 1) % n == t + 1;
    }
  }

  /** Two positions less than `n` apart from the same head are different
      slots. */
  lemma SlotInjective(head: nat, j: nat, k: nat, n: nat)
    requires head < n && j < n && k < n && j != k
    ensures Slot(head, j, n) != Slot(head, k, n)
  {
  }

  /** The indices queued in the ring, oldest first. */
  function RingContents(order: seq<nat>, head: nat, queued: nat): (q: seq<nat>)
    requires head < |order| && queued <= |order|
    ensures |q| == queued
  {
    seq(queued, j requires 0 <= j < queued => order[Slot(head, j, |order|)])
  }

  /** No index occurs twice. */
  predicate Distinct(q: seq<nat>)
  {
    forall i, j :: 0 <= i < j < |q| ==> q[i] != q[j]
  }

  /** The indices `0 .. n-1`. */
  function Below(n: nat): (r: set<nat>)
    ensures |r| == n
    ensures forall k :: 0 <= k ==> (k in r <==> k < n)
  {
    if n == 0 then {} else Below(n - 1) + {n - 1}
  }

  /** The indices occurring in `q`. */
  function Members(q: seq<nat>): set<nat>
  {
    set i | 0 <= i < |q| :: q[i]
  }

  /** A sequence without repetitions has as many members as entries. */
  lemma {:induction false} DistinctSize(q: seq<nat>)
    requires Distinct(q)
    ensures |Members(q)| == |q|
  {
    if |q| > 0 {
      var p := q[..|q| - 1];
      DistinctSize(p);
      assert Members(q) == Members(p) + {q[|q| - 1]};
      assert q[|q| - 1] !in Members(p);
    }
  }

  /** A subset is no larger than its superset. */
  lemma {:induction false} SubsetSize(a: set<nat>, b: set<nat>)
    requires a <= b
    ensures |a| <= |b|
    decreases |b|
  {
    if a != {} {
      var x :| x in a;
      SubsetSize(a - {x}, b - {x});
    }
  }

  /** Pigeonhole: distinct indices below `n` that leave out one index below
      `n` are fewer than `n`. */
  lemma Pigeonhole(q: seq<nat>, n: nat, x: nat)
    requires Distinct(q) && forall i :: 0 <= i < |q| ==> q[i] < n
    requires x < n && x !in q
    ensures |q| < n
  {
    DistinctSize(q);
    assert Members(q) <= Below(n) - {x};
    SubsetSize(Members(q), Below(n) - {x});
  }

  /** Enqueuing writes `x` at the tail and moves the tail on by one slot;
      the contents grow by `x` at the back. */
  lemma RingPush(order: seq<nat>, head: nat, queued: nat, x: nat)
    requires head < |order| && queued < |order|
    ensures var order' := order[Slot(head, queued, |order|) := x];
      RingContents(order', head, queued + 1) == RingContents(order, head, queued) + [x]
  {
    var n := |order|;
    var order' := order[Slot(head, queued, n) := x];
    var a := RingContents(order', head, queued + 1);
    var b := RingContents(order, head, queued) + [x];
    forall j | 0 <= j < queued + 1 ensures a[j] == b[j] {
      if j < queued {
        SlotInjective(head, j, queued, n);
      }
    }
  }

  /** Dequeuing moves the head on by one slot; the contents lose their
      front. */
  lemma RingPop(order: seq<nat>, head: nat, queued: nat)
    requires head < |order| && 0 < queued <= |order|
    ensures RingContents(order, Slot(head, 1, |order|), queued - 1) ==
      RingContents(order, head, queued)[1..]
  {
  }

  /** The queued buffers in ring order. */
  function QueueOf(order: seq<nat>, head: nat, queued: nat): seq<nat>
  {
    if head < |order| && queued <= |order| then RingContents(order, head, queued) else []
  }

  /** Every element released, valid sizes kept. */
  function Released(es: seq<Element>): (r: seq<Element>)
    ensures |r| == |es|
    ensures forall i :: 0 <= i < |es| ==> r[i] == Element(true, es[i].validSize)
  {
    seq(|es|, i requires 0 <= i < |es| => Element(true, es[i].validSize))
  }

  /** The ring invariant over values: the tail is `queued` slots after the
      head; the ring holds distinct indices of the pool, and an element is
      driver-owned exactly when its index is in the ring. The tail meets
      the head both when the ring is empty and when it is full, which is why
      the adapter keeps `queued_count` besides the two indices. */
  predicate RingOk(order: seq<nat>, elements: seq<Element>, head: nat, tail: nat, queued: nat)
    ensures RingOk(order, elements, head, tail, queued) ==>
      (tail == head <==> queued == 0 || queued == |order|)
  {
    1 <= |order| && |elements| == |order| &&
    head < |order| && queued <= |order| && tail == Slot(head, queued, |order|) &&
    var q := RingContents(order, head, queued);
    Distinct(q) && (forall j :: 0 <= j < |q| ==> q[j] < |order|) &&
    (forall i :: 0 <= i < |order| ==> (elements[i].free <==> i !in q))
  }

  /** Under the ring invariant the ring is empty exactly when every buffer
      is with the application. */
  lemma RingEmptyIffIdle(order: seq<nat>, elements: seq<Element>, head: nat, tail: nat, queued: nat)
    requires RingOk(order, elements, head, tail, queued)
    ensures queued == 0 <==> forall i :: 0 <= i < |elements| ==> elements[i].free
  {
    var q := RingContents(order, head, queued);
    if queued > 0 {
      assert q[0] in q;
    }
  }

  /** A pool with every element free and an empty ring satisfies the
      invariant, whatever `queue_order` holds. */
  lemma RingEmptyOk(order: seq<nat>, elements: seq<Element>)
    requires 1 <= |order| == |elements|
    requires forall i :: 0 <= i < |elements| ==> elements[i].free
    ensures RingOk(order, elements, 0, 0, 0) && RingContents(order, 0, 0) == []
  {
  }

  /** Queuing a free element: the ring cannot be full (pigeonhole), and
      writing the index at the tail, advancing the tail and marking the
      element driver-owned keeps the invariant and appends the index. */
  lemma RingPushOk(order: seq<nat>, elements: seq<Element>, head: nat, tail: nat, queued: nat, x: nat)
    requires RingOk(order, elements, head, tail, queued)
    requires x < |order| && elements[x].free
    ensures queued < |order|
    ensures RingOk(order[tail := x], elements[x := Element(false, 0)],
                   head, Slot(tail, 1, |order|), queued + 1)
    ensures RingContents(order[tail := x], head, queued + 1) ==
            RingContents(order, head, queued) + [x]
  {
    var n := |order|;
    var q := RingContents(order, head, queued);
    Pigeonhole(q, n, x);
    RingPush(order, head, queued, x);
    var q' := RingContents(order[tail := x], head, queued + 1);
    assert q' == q + [x];
    assert Slot(tail, 1, n) == Slot(head, queued + 1, n);
    var es' := elements[x := Element(false, 0)];
    forall i | 0 <= i < n ensures es'[i].free <==> i !in q' {
      assert i in q' <==> i in q || i == x;
    }
  }

  /** Dequeuing: the index at the head is the oldest queued one and its
      element is driver-owned; advancing the head and freeing the element
      keeps the invariant and drops the index from the front. */
  lemma RingPopOk(order: seq<nat>, elements: seq<Element>, head: nat, tail: nat, queued: nat, e: Element)
    requires RingOk(order, elements, head, tail, queued)
    requires queued > 0 && e.free
    ensures order[head] == RingContents(order, head, queued)[0]
    ensures !elements[order[head]].free
    ensures RingOk(order, elements[order[head] := e], Slot(head, 1, |order|), tail, queued - 1)
    ensures RingContents(order, Slot(head, 1, |order|), queued - 1) ==
            RingContents(order, head, queued)[1..]
  {
    var n := |order|;
    var q := RingContents(order, head, queued);
    var x := order[head];
    assert q[0] == x;
    RingPop(order, head, queued);
    var q' := RingContents(order, Slot(head, 1, n), queued - 1);
    assert q' == q[1..];
    assert x !in q' by {
      forall j | 0 <= j < |q'| ensures q'[j] != x {
        assert q'[j] == q[j + 1];
      }
    }
    var es' := elements[x := e];
    forall i | 0 <= i < n ensures es'[i].free <==> i !in q' {
      assert i in q <==> i in q' || i == x;
    }
  }

  /** The elements of a freshly created pool of `n` buffers: all free,
      nothing valid. */
  function FreshPool(n: nat): (es: seq<Element>)
    ensures |es| == n && forall i :: 0 <= i < n ==> es[i] == Element(true, 0)
  {
    seq(n, _ => Element(true, 0))
  }

  // ---- pure parts ----

  /** `v4l2_enum_format`: the two capture formats, RGB565 then SBGGR8. */
  function EnumFormat(bufType: U32, index: U32): (r: (Status, Option<bv32>))
    ensures bufType != BUF_TYPE_VIDEO_CAPTURE ==> r == (ErrNotSupported, None)
    ensures bufType == BUF_TYPE_VIDEO_CAPTURE && index >= 2 ==> r == (ErrNotFound, None)
    ensures r.0 == Ok <==> bufType == BUF_TYPE_VIDEO_CAPTURE && index < 2
    ensures r.0 == Ok ==>
      r.1.Some? && r.1.value in {V4l2Macros.PIX_FMT_RGB565, V4l2Macros.PIX_FMT_SBGGR8}
  {
    if bufType != BUF_TYPE_VIDEO_CAPTURE then (ErrNotSupported, None)
    else if index >= 2 then (ErrNotFound, None)
    else (Ok, Some([V4l2Macros.PIX_FMT_RGB565, V4l2Macros.PIX_FMT_SBGGR8][index]))
  }

  /** Enumerating indices 0 and 1 lists RGB565 first and SBGGR8 second:
      each supported format once. */
  lemma EnumFormatListsEachOnce()
    ensures EnumFormat(BUF_TYPE_VIDEO_CAPTURE, 0) == (Ok, Some(V4l2Macros.PIX_FMT_RGB565))
    ensures EnumFormat(BUF_TYPE_VIDEO_CAPTURE, 1) == (Ok, Some(V4l2Macros.PIX_FMT_SBGGR8))
    ensures EnumFormat(BUF_TYPE_VIDEO_CAPTURE, 0).1 != EnumFormat(BUF_TYPE_VIDEO_CAPTURE, 1).1
  {
    V4l2Macros.PixelFormatsDistinct();
  }

  // ---- the context ----

  /** `MipiCameraV4L2Context`, with the ring fields `queue_order`,
      `queue_head` and `queue_tail` that the adapter uses. */
  class Context {
    var width: U32
    var height: U32
    var streaming: bool
    var hasBuffers: bool
    var elements: seq<Element>
    var bufferSize: U32
    var bufferCount: nat
    var queued: nat
    var head: nat
    var tail: nat
    var queueOrder: array?<nat>
    var frameCount: U32
    var dropCount: U32

    /** The queued indices, oldest first. */
    ghost function Queue(): seq<nat>
      reads this, queueOrder
    {
      if queueOrder == null then [] else QueueOf(queueOrder[..], head, queued)
    }

    /** The pool and `queue_order` exist together, with at most 8 buffers,
        and the ring invariant holds over them. */
    ghost predicate Valid()
      reads this, queueOrder
    {
      (hasBuffers <==> queueOrder != null) &&
      (!hasBuffers ==> bufferCount == 0 && elements == [] && queued == 0 && head == 0 && tail == 0) &&
      (hasBuffers ==>
        1 <= bufferCount <= MAX_BUFFERS && queueOrder.Length == bufferCount &&
        RingOk(queueOrder[..], elements, head, tail, queued))
    }

    /** The adapter constructor's zeroed context for a camera of the given
        size. */
    constructor (width: U32, height: U32)
      ensures Valid() && !streaming && !hasBuffers && Queue() == []
      ensures this.width == width && this.height == height
      ensures frameCount == 0 && dropCount == 0
    {
      this.width := width;
      this.height := height;
      streaming := false;
      hasBuffers := false;
      elements := [];
      bufferSize := 0;
      bufferCount := 0;
      queued := 0;
      head := 0;
      tail := 0;
      queueOrder := null;
      frameCount := 0;
      dropCount := 0;
    }

    /** `reset_queue_state(ctx, reset_buffers, clear_order)`. */
    method ResetQueueState(resetBuffers: bool, clearOrder: bool)
      requires queueOrder != null ==> bufferCount <= queueOrder.Length
      modifies this, queueOrder
      ensures queued == 0 && head == 0 && tail == 0
      ensures elements == (if resetBuffers && hasBuffers then Released(old(elements)) else old(elements))
      ensures queueOrder == old(queueOrder)
      ensures queueOrder != null && clearOrder ==>
        forall i :: 0 <= i < bufferCount && i < queueOrder.Length ==> queueOrder[i] == 0
      ensures queueOrder != null && !clearOrder ==> queueOrder[..] == old(queueOrder[..])
      ensures queueOrder != null ==>
        forall i :: bufferCount <= i < queueOrder.Length ==> queueOrder[i] == old(queueOrder[i])
      ensures hasBuffers == old(hasBuffers) && bufferCount == old(bufferCount)
      ensures bufferSize == old(bufferSize) && streaming == old(streaming)
      ensures frameCount == old(frameCount) && dropCount == old(dropCount)
      ensures width == old(width) && height == old(height)
    {
      if resetBuffers && hasBuffers {
        elements := Released(elements);
      }
      queued := 0;
      head := 0;
      tail := 0;
      if clearOrder && queueOrder != null && bufferCount > 0 {
        var order := queueOrder;
        forall i | 0 <= i < bufferCount {
          order[i] := 0;
        }
      }
    }

    /** `v4l2_reqbufs`: `count` buffers of `width * height * 2` bytes are
        asked for; `createOk` and `orderAllocOk` say whether the pool and
        the `queue_order` array can be allocated. Returns the status and the
        count written back into the request. */
    method Reqbufs(reqType: U32, memory: U32, count: U32, createOk: bool, orderAllocOk: bool)
      returns (status: Status, countOut: U32)
      requires Valid()
      modifies this, queueOrder
      ensures Valid()
      ensures reqType != BUF_TYPE_VIDEO_CAPTURE || memory != MEMORY_MMAP || old(streaming) ==>
        status == (if reqType != BUF_TYPE_VIDEO_CAPTURE || memory != MEMORY_MMAP
                   then ErrNotSupported else ErrInvalidState) &&
        countOut == count && unchanged(this) && (queueOrder != null ==> unchanged(queueOrder))
      ensures reqType == BUF_TYPE_VIDEO_CAPTURE && memory == MEMORY_MMAP && !old(streaming) ==>
        Reallocated(count, createOk, orderAllocOk, status, countOut)
      ensures streaming == old(streaming) && width == old(width) && height == old(height)
      ensures frameCount == old(frameCount) && dropCount == old(dropCount)
    {
      if reqType != BUF_TYPE_VIDEO_CAPTURE {
        return ErrNotSupported, count;
      }
      if memory != MEMORY_MMAP {
        return ErrNotSupported, count;
      }
      if streaming {
        return ErrInvalidState, count;
      }
      status, countOut := ReplaceBuffers(count, createOk, orderAllocOk);
    }

    /** The outcome of a `reqbufs` call that passed its checks: the count is
        clamped to 8; it fails with NO_MEM exactly when buffers were asked
        for and an allocation failed; on success with a non-zero count there
        is a fresh pool of free buffers, a fresh zeroed `queue_order` and an
        empty ring, and otherwise there is no pool at all. */
    ghost predicate Reallocated(count: U32, createOk: bool, orderAllocOk: bool, status: Status, countOut: U32)
      reads this, queueOrder
    {
      countOut == (if count > MAX_BUFFERS then MAX_BUFFERS else count) &&
      (status == Ok || status == ErrNoMem) &&
      (status == ErrNoMem <==> count > 0 && (!createOk || !orderAllocOk)) &&
      (status == Ok && count > 0 <==> hasBuffers) &&
      (hasBuffers ==>
        queueOrder != null && bufferCount == countOut &&
        Queue() == [] && head == 0 && tail == 0 && elements == FreshPool(countOut) &&
        bufferSize == Mul32(Mul32(width, height), 2) &&
        forall i :: 0 <= i < queueOrder.Length ==> queueOrder[i] == 0)
    }

    /** The teardown at the start of `v4l2_reqbufs`: reset the ring,
        destroy the pool and delete `queue_order`. */
    method ReleaseBuffers()
      requires Valid()
      modifies this, queueOrder
      ensures Valid() && !hasBuffers && queueOrder == null && Queue() == []
      ensures streaming == old(streaming) && width == old(width) && height == old(height)
      ensures frameCount == old(frameCount) && dropCount == old(dropCount)
      ensures bufferSize == old(bufferSize)
    {
      ResetQueueState(true, true);
      if hasBuffers {
        // esp_video_buffer_destroy
        hasBuffers := false;
        elements := [];
        bufferCount := 0;
      }
      if queueOrder != null {
        queueOrder := null;
      }
      bufferCount := 0;
    }

    /** The body of `v4l2_reqbufs` after its checks: reset the ring, destroy
        the pool and `queue_order`, then create `count` (at most 8) new
        buffers. */
    method ReplaceBuffers(count: U32, createOk: bool, orderAllocOk: bool)
      returns (status: Status, countOut: U32)
      requires Valid()
      modifies this, queueOrder
      ensures Valid()
      ensures Reallocated(count, createOk, orderAllocOk, status, countOut)
      ensures hasBuffers ==> fresh(queueOrder)
      ensures streaming == old(streaming) && width == old(width) && height == old(height)
      ensures frameCount == old(frameCount) && dropCount == old(dropCount)
    {
      countOut := count;
      ReleaseBuffers();
      if count == 0 {
        return Ok, countOut;
      }
      if count > MAX_BUFFERS as U32 {
        countOut := MAX_BUFFERS as U32;
      }
      var size := Mul32(Mul32(width, height), 2);
      if !createOk {
        return ErrNoMem, countOut;
      }
      hasBuffers := true;
      elements := FreshPool(countOut);
      bufferSize := size;
      if !orderAllocOk {
        // esp_video_buffer_destroy
        hasBuffers := false;
        elements := [];
        return ErrNoMem, countOut;
      }
      InstallQueueOrder(countOut);
      status := Ok;
    }

    /** The end of a successful `v4l2_reqbufs`: a new `queue_order` of `n`
        zeroes and an empty ring over the freshly created pool. */
    method InstallQueueOrder(n: nat)
      requires 1 <= n <= MAX_BUFFERS && hasBuffers && elements == FreshPool(n)
      modifies this
      ensures Valid() && hasBuffers && bufferCount == n && fresh(queueOrder)
      ensures Queue() == [] && head == 0 && tail == 0 && elements == old(elements)
      ensures forall i :: 0 <= i < queueOrder.Length ==> queueOrder[i] == 0
      ensures streaming == old(streaming) && width == old(width) && height == old(height)
      ensures frameCount == old(frameCount) && dropCount == old(dropCount)
      ensures bufferSize == old(bufferSize)
    {
      // new uint32_t[count], then std::fill_n with 0
      var order := new nat[n](_ => 0);
      queueOrder := order;
      bufferCount := n;
      queued := 0;
      head := 0;
      tail := 0;
      RingEmptyOk(order[..], elements);
    }

    /** `v4l2_querybuf`: the length, offset and flags of buffer `index`;
        the flags say QUEUED exactly when the buffer is in the ring. */
    method Querybuf(index: U32) returns (status: Status, length: U32, offset: nat, flags: U32)
      requires Valid()
      ensures status == ErrInvalidArg <==> !hasBuffers || index >= bufferCount
      ensures status != ErrInvalidArg ==> status == Ok
      ensures status == Ok ==> length == bufferSize && offset == index
      ensures status == Ok ==> (flags == BUF_FLAG_QUEUED <==> index in Queue())
      ensures status == Ok ==> (flags == 0 <==> index !in Queue())
    {
      if !hasBuffers || index >= bufferCount {
        return ErrInvalidArg, 0, 0, 0;
      }
      length := bufferSize;
      offset := index;
      if elements[index].free {
        flags := 0;
      } else {
        flags := BUF_FLAG_QUEUED;
      }
      status := Ok;
    }

    /** `v4l2_qbuf`: hand buffer `index` to the driver, at the back of the
        ring. The source's checks for a missing `queue_order` and for a full
        ring can never fire under the ring invariant; the model proves so
        instead of testing them. */
    method Qbuf(index: U32) returns (status: Status)
      requires Valid()
      modifies this, queueOrder
      ensures Valid()
      ensures status == Ok <==>
        old(hasBuffers) && index < old(bufferCount) && old(elements)[index].free
      ensures status == ErrInvalidArg <==> !old(hasBuffers) || index >= old(bufferCount)
      ensures status != Ok && status != ErrInvalidArg ==> status == ErrInvalidState
      ensures status != Ok ==> unchanged(this) && (queueOrder != null ==> unchanged(queueOrder))
      ensures status == Ok ==>
        Queue() == old(Queue()) + [index as nat] &&
        elements == old(elements)[index := Element(false, 0)] &&
        queueOrder == old(queueOrder) && queueOrder[old(tail)] == index &&
        tail == (old(tail) + 1) % bufferCount && head == old(head) && queued == old(queued) + 1
      ensures hasBuffers == old(hasBuffers) && bufferCount == old(bufferCount)
      ensures bufferSize == old(bufferSize) && streaming == old(streaming)
      ensures frameCount == old(frameCount) && dropCount == old(dropCount)
      ensures width == old(width) && height == old(height)
    {
      if !hasBuffers || index >= bufferCount {
        return ErrInvalidArg;
      }
      if !elements[index].free {
        return ErrInvalidState;
      }
      // ELEMENT_SET_FREE on a free element changes nothing.
      RingPushOk(queueOrder[..], elements, head, tail, queued, index as nat);
      NextSlot(tail, bufferCount);
      elements := elements[index := Element(false, 0)];
      queueOrder[tail] := index as nat;
      tail := (tail + 1) % bufferCount;
      queued := queued + 1;
      status := Ok;
    }

    /** `v4l2_dqbuf`: hand the oldest queued buffer back to the application
        filled with the camera frame. `captureOk` is the result of
        `capture_frame`, `dataPresent` whether `get_image_data` is non-null
        and `cameraSize` the frame size. The source's checks for a missing
        `queue_order` and for a free buffer at the head can never fire under
        the ring invariant; the model proves so. */
    method Dqbuf(captureOk: bool, dataPresent: bool, cameraSize: nat)
      returns (status: Status, buf: Option<DequeuedBuffer>)
      requires Valid()
      modifies this
      ensures Valid()
      ensures buf.Some? <==> status == Ok
      ensures status == Ok <==>
        old(hasBuffers) && old(streaming) && old(queued) > 0 && captureOk && dataPresent
      ensures !old(hasBuffers) || !old(streaming) ==> status == ErrInvalidState && unchanged(this)
      ensures old(hasBuffers) && old(streaming) && old(queued) == 0 ==>
        status == ErrNotFound && dropCount == Inc32(old(dropCount)) &&
        elements == old(elements) && queued == 0 && frameCount == old(frameCount) &&
        head == old(head) && tail == old(tail)
      ensures old(hasBuffers) && old(streaming) && old(queued) > 0 && !captureOk ==>
        status == ErrNotFound && unchanged(this)
      ensures old(hasBuffers) && old(streaming) && old(queued) > 0 && captureOk && !dataPresent ==>
        status == ErrInvalidState && unchanged(this)
      ensures status == Ok ==>
        var i := old(Queue())[0];
        var copy := if cameraSize < old(bufferSize) then cameraSize else old(bufferSize);
        buf == Some(DequeuedBuffer(i, copy, DQBUF_FLAGS, i, old(bufferSize), old(frameCount))) &&
        Queue() == old(Queue())[1..] &&
        elements == old(elements)[i := Element(true, copy)] &&
        head == (old(head) + 1) % bufferCount && tail == old(tail) && queued == old(queued) - 1 &&
        frameCount == Inc32(old(frameCount)) && dropCount == old(dropCount)
      ensures queueOrder == old(queueOrder)
      ensures hasBuffers == old(hasBuffers) && bufferCount == old(bufferCount)
      ensures bufferSize == old(bufferSize) && streaming == old(streaming)
      ensures width == old(width) && height == old(height)
    {
      buf := None;
      if !hasBuffers || !streaming {
        return ErrInvalidState, buf;
      }
      if queued == 0 {
        CountDrop();
        return ErrNotFound, buf;
      }
      if !captureOk {
        return ErrNotFound, buf;
      }
      if !dataPresent {
        return ErrInvalidState, buf;
      }
      var copySize := if cameraSize < bufferSize then cameraSize else bufferSize;
      var queueIndex := queueOrder[head];
      buf := Some(DequeuedBuffer(queueIndex, copySize, DQBUF_FLAGS, queueIndex, bufferSize, frameCount));
      ReleaseHead(copySize);
      frameCount := Inc32(frameCount);
      status := Ok;
    }

    /** The empty-queue path of `v4l2_dqbuf`: the dropped frame is counted
        and nothing else changes. */
    method CountDrop()
      requires Valid()
      modifies this
      ensures Valid() && dropCount == Inc32(old(dropCount))
      ensures elements == old(elements) && queued == old(queued) && head == old(head) && tail == old(tail)
      ensures queueOrder == old(queueOrder) && frameCount == old(frameCount)
      ensures hasBuffers == old(hasBuffers) && bufferCount == old(bufferCount)
      ensures bufferSize == old(bufferSize) && streaming == old(streaming)
      ensures width == old(width) && height == old(height)
    {
      dropCount := Inc32(dropCount);
    }

    /** The ring step of a successful `v4l2_dqbuf`: the buffer at the head,
        the oldest queued one, becomes free holding `copySize` valid bytes,
        and the head moves on by one slot. */
    method ReleaseHead(copySize: nat)
      requires Valid() && hasBuffers && queued > 0
      modifies this
      ensures Valid()
      ensures old(queueOrder[head]) == old(Queue())[0]
      ensures Queue() == old(Queue())[1..]
      ensures elements == old(elements)[old(queueOrder[head]) := Element(true, copySize)]
      ensures head == (old(head) + 1) % bufferCount && tail == old(tail) && queued == old(queued) - 1
      ensures queueOrder == old(queueOrder) && hasBuffers && bufferCount == old(bufferCount)
      ensures bufferSize == old(bufferSize) && streaming == old(streaming)
      ensures frameCount == old(frameCount) && dropCount == old(dropCount)
      ensures width == old(width) && height == old(height)
    {
      var queueIndex := queueOrder[head];
      RingPopOk(queueOrder[..], elements, head, tail, queued, Element(true, copySize));
      NextSlot(head, bufferCount);
      elements := elements[queueIndex := Element(true, copySize)];
      head := (head + 1) % bufferCount;
      if queued > 0 {
        queued := queued - 1;
      }
    }

    /** `v4l2_stop`: leave streaming, give every buffer back and zero the
        counters. Stopping the camera itself is not modelled. */
    method Stop(bufType: U32) returns (status: Status)
      requires Valid()
      modifies this, queueOrder
      ensures Valid()
      ensures bufType != BUF_TYPE_VIDEO_CAPTURE ==> status == ErrNotSupported
      ensures bufType == BUF_TYPE_VIDEO_CAPTURE ==> status == Ok
      ensures bufType != BUF_TYPE_VIDEO_CAPTURE || !old(streaming) ==>
        unchanged(this) && (queueOrder != null ==> unchanged(queueOrder))
      ensures bufType == BUF_TYPE_VIDEO_CAPTURE && old(streaming) ==>
        !streaming && Queue() == [] && head == 0 && tail == 0 &&
        elements == Released(old(elements)) && frameCount == 0 && dropCount == 0 &&
        (queueOrder != null ==> forall i :: 0 <= i < queueOrder.Length ==> queueOrder[i] == 0)
      ensures queueOrder == old(queueOrder)
      ensures hasBuffers == old(hasBuffers) && bufferCount == old(bufferCount)
      ensures bufferSize == old(bufferSize) && width == old(width) && height == old(height)
    {
      if bufType != BUF_TYPE_VIDEO_CAPTURE {
        return ErrNotSupported;
      }
      if !streaming {
        return Ok;
      }
      streaming := false;
      if hasBuffers {
        elements := Released(elements);
        queued := 0;
      }
      ResetQueueState(true, true);
      if hasBuffers {
        RingEmptyOk(queueOrder[..], elements);
      }
      frameCount := 0;
      dropCount := 0;
      status := Ok;
    }
  }
}
