# ESP32-P4 camera pipeline — a Dafny model

This project models the core of a set of ESPHome components for an
ESP32-P4 MIPI camera pipeline, and proves properties of that model:

- **The V4L2 capture-buffer ring of `MipiDsiCamV4L2Adapter`** (`V4l2Adapter`).
  - A pool of up to 8 frame buffers, each free or driver-owned.
  - The FIFO `queue_order[queue_head .. queue_tail)` of queued indices.
  - The operations `reqbufs`, `querybuf`, `qbuf`, `dqbuf`, `stop`,
    `reset_queue_state` and `enum_format`.
  - The ring invariant these operations keep.
- **The `mmap`/`munmap` shim of the LVGL camera display** (`Mman`): a
  32-record table with first-free allocation and release by address.
- **The four hardware-encoder wrappers.**
  - The `h264` component (`H264Component`), the `jpeg` component
    (`JpegComponent`) and the two encoders of `mipi_dsi_cam`
    (`MipiEncoders`).
  - All four share one device session (`CodecSession`): open, two
    three-element buffer pools (`VideoBuffers`), the stream-on flags, and
    the queue–encode–dequeue round.
- **The buffer table of `app_video.c`** (`AppVideo`): `set_bufs`,
  `get_bufs` and the frame-size arithmetic.
- **The ioctl request-number encoding and the V4L2 arithmetic macros**
  (`IoctlCodes`, `V4l2Macros`).
- **The YAML configuration of the `h264`, `jpeg` and `lvgl_camera_display`
  components.**
  - The schemas as data, with a validator (`ConfigSchema`).
  - The `to_code` steps as an ordered list of emitted statements
    (`CodeGen`).

Every ioctl, allocation and camera call is a parameter of the model (an
oracle):

- `InitScript` says which encoder set-up steps succeed.
- `DriverScript` says which steps of one encode succeed, and the
  `bytesused` the driver reports.
- `BufStep` gives the driver's answers while `set_bufs` sets up a buffer.
- The `Reqbufs` flags say whether its allocations succeed.
- The `alloc` argument of `Mmap` is what the heap returns.

Pointers are naturals, with NULL as 0 and `MAP_FAILED` as `0xFFFFFFFF`,
the 32-bit `(void *) -1`. `uint32_t` arithmetic wraps explicitly
(`Common.Add32`, `Common.Mul32`, `Common.Inc32`).

## Model

| member | source | states |
|---|---|---|
| Common.AtLeastOne | components/h264/h264_encoder.cpp:87 | `max(1, x)`: at least 1, equal to `x` when `x` is already positive |
| IoctlCodes.DerivedLayout | components/lvgl_camera_display/ioctl.h:13-16 | each field's shift is where the previous field ends, starting at bit 0 |
| IoctlCodes.DerivedLayoutIsFixedLayout | components/mipi_dsi_cam/videodev2.h:47-60 | with 8/8/14-bit widths the derived shifts are the literal 0/8/16/30 of videodev2.h, and the direction field ends at bit 32 |
| IoctlCodes.MaskValues | components/mipi_dsi_cam/videodev2.h:52-55 | the masks `(1 << bits) - 1` are 0xFF, 0xFF, 0x3FFF and 0x3 |
| IoctlCodes.Mask | components/lvgl_camera_display/ioctl.h:8-11 | `(1 << bits) - 1` is a run of exactly `bits` one bits starting at bit 0 |
| IoctlCodes.Ioc | components/lvgl_camera_display/ioctl.h:18-22 | the number always occupies the low byte, and with fitting fields the direction occupies the top two bits |
| IoctlCodes.IocDir | components/lvgl_camera_display/ioctl.h:11 | the decoded direction fits its mask |
| IoctlCodes.IocType | components/lvgl_camera_display/ioctl.h:9 | the decoded type fits its mask |
| IoctlCodes.IocNr | components/lvgl_camera_display/ioctl.h:8 | the decoded number fits its mask |
| IoctlCodes.IocSize | components/lvgl_camera_display/ioctl.h:10 | the decoded size fits its mask |
| IoctlCodes.DecodeEncode | components/lvgl_camera_display/ioctl.h:18-22 | decoding `_IOC(dir, type, nr, size)` gives back each of the four fields when they fit their widths |
| IoctlCodes.EncodeDecode | components/lvgl_camera_display/ioctl.h:18-22 | the fields cover all 32 bits without overlap: re-encoding the decoded fields gives back any request number |
| IoctlCodes.IocInjective | components/lvgl_camera_display/ioctl.h:18-22 | two request numbers built from fitting fields are equal only when all four fields are |
| IoctlCodes.Io | components/lvgl_camera_display/ioctl.h:26-28 | `_IO` has direction NONE, size 0, and the given type and number |
| IoctlCodes.Ior | components/lvgl_camera_display/ioctl.h:30-32 | `_IOR` has direction READ (2) and carries `sizeof` of its argument as the size |
| IoctlCodes.Iow | components/lvgl_camera_display/ioctl.h:34-36 | `_IOW` has direction WRITE (1) and carries the size |
| IoctlCodes.Iowr | components/lvgl_camera_display/ioctl.h:38-40 | `_IOWR` has direction READ\|WRITE (3) and carries the size |
| IoctlCodes.DirectionsDistinguishRequests | components/lvgl_camera_display/ioctl.h:26-40 | for the same type, number and non-zero size, the four macros give four different request numbers |
| V4l2Macros.BlankingWidth | components/mipi_dsi_cam/videodev2.h:228 | the horizontal blanking is front porch + sync + back porch whenever that sum fits 32 bits |
| V4l2Macros.FrameWidth | components/mipi_dsi_cam/videodev2.h:229 | the frame width is the active width plus the blanking whenever the total fits 32 bits |
| V4l2Macros.BlankingHeight | components/mipi_dsi_cam/videodev2.h:230-231 | the vertical blanking is the sum of the three progressive and three interlaced porch/sync fields |
| V4l2Macros.FrameHeight | components/mipi_dsi_cam/videodev2.h:232 | the frame height is the active height plus the vertical blanking |
| V4l2Macros.FrameSizesWithoutOverflow | components/mipi_dsi_cam/videodev2.h:228-232 | without overflow, the frame is the active area plus the blanking, and at least as large as either part |
| V4l2Macros.Id2Class | components/mipi_dsi_cam/videodev2.h:450 | the class of a control ID has bits 16..27 equal to the ID's and every other bit clear |
| V4l2Macros.DriverPriv | components/mipi_dsi_cam/videodev2.h:452 | a control is driver-private exactly when one of bits 12..15 of its ID is set |
| V4l2Macros.UserControlClass | components/mipi_dsi_cam/videodev2.h:561-573 | every `V4L2_CID_BASE + 0..26` is in the user class 0x00980000 and is not driver-private |
| V4l2Macros.MpegControlClass | components/mipi_dsi_cam/videodev2.h:1306-1314 | every `V4L2_CID_MPEG_BASE + 0..500` is in class 0x00990000 and is not driver-private |
| V4l2Macros.EncoderControlsAreStandard | components/mipi_dsi_cam/videodev2.h:452 | the bitrate, GOP-size and JPEG-quality controls the encoders set are in the codec class and are not driver-private |
| V4l2Macros.Fourcc | components/mipi_dsi_cam/videodev2.h:1358-1375 | `v4l2_fourcc` packs its four characters little-endian; each can be read back from its byte |
| V4l2Macros.PixelFormatsDistinct | components/mipi_dsi_cam/videodev2.h:1375 | the RGB565 and SBGGR8 codes differ |
| Mman.FindFrom | components/lvgl_camera_display/mman.cpp:37-43 | the lowest record at or after `from` holding `addr`, or none when no record does |
| Mman.MmapSpec | components/lvgl_camera_display/mman.cpp:30-76 | it fails with ENOMEM and `MAP_FAILED`, table unchanged, exactly when no record is free or the allocation fails; otherwise it records `(addr, length, fd, offset)` in the lowest free record only and returns `addr` |
| Mman.MunmapSpec | components/lvgl_camera_display/mman.cpp:78-98 | -1 with EINVAL and the table unchanged exactly when no record holds the address; otherwise the first such record becomes `(NULL, 0, -1, 0)`, no other record changes, and the result is 0 |
| Mman.FreeSlotsUpdate | components/lvgl_camera_display/mman.cpp:68-75 | replacing one record changes the free count by exactly that record's contribution |
| Mman.FreeSlotsPositive | components/lvgl_camera_display/mman.cpp:37-49 | a free record exists exactly when the free count is positive |
| Mman.MmapAccounting | components/lvgl_camera_display/mman.cpp:60-75 | a successful `mmap` uses one free record and adds exactly its address to the mapped set; a failed one changes neither |
| Mman.FullTableRefuses | components/lvgl_camera_display/mman.cpp:45-49 | with all 32 records taken, `mmap` fails with ENOMEM and leaves the table, whatever the heap would return |
| Mman.MmapThenMunmap | components/lvgl_camera_display/mman.cpp:68-92 | `munmap(mmap(...))` succeeds, keeps addresses distinct, and restores the mapped set and the free count |
| Mman.MunmapNullClearsFreeRecord | components/lvgl_camera_display/mman.cpp:82-92 | `munmap(NULL)` matches a free record and returns 0 whenever one exists, losing no mapping |
| Mman.AllFree | components/lvgl_camera_display/mman.cpp:19-28 | a zeroed table has 32 free records and maps nothing |
| Mman.MmapTable.constructor | components/lvgl_camera_display/mman.cpp:19-20 | static storage: every record zero, all free, not yet initialised |
| Mman.MmapTable.InitTable | components/lvgl_camera_display/mman.cpp:22-28 | on first use the table is zeroed, which leaves it as it was |
| Mman.MmapTable.Mmap | components/lvgl_camera_display/mman.cpp:30-76 | the linear search and update give exactly `MmapSpec`'s table and result; errno is set on failure only |
| Mman.MmapTable.Munmap | components/lvgl_camera_display/mman.cpp:78-98 | the linear search and update give exactly `MunmapSpec`'s table and result; errno is set on failure only |
| V4l2Adapter.Slot | components/mipi_dsi_cam/mipi_dsi_cam_v4l2_adapter.cpp:414 | `(head + j) mod n` for positions in range |
| V4l2Adapter.NextSlot | components/mipi_dsi_cam/mipi_dsi_cam_v4l2_adapter.cpp:414 | `(t + 1) % n` is the next slot, wrapping to 0 |
| V4l2Adapter.RingOk | components/mipi_dsi_cam/mipi_dsi_cam_v4l2_adapter.cpp:405-517 | under the ring invariant the tail meets the head exactly when the ring is empty or full, so only `queued_count` tells the two apart |
| V4l2Adapter.RingEmptyIffIdle | components/mipi_dsi_cam/mipi_dsi_cam_v4l2_adapter.cpp:436-440 | under the ring invariant the queue is empty exactly when every buffer is free |
| V4l2Adapter.RingContents | components/mipi_dsi_cam/mipi_dsi_cam_v4l2_adapter.cpp:479-485 | the queued indices, oldest first, one per queued buffer |
| V4l2Adapter.Pigeonhole | components/mipi_dsi_cam/mipi_dsi_cam_v4l2_adapter.cpp:405-408 | distinct indices below `n` that miss one index below `n` are fewer than `n` |
| V4l2Adapter.RingPush | components/mipi_dsi_cam/mipi_dsi_cam_v4l2_adapter.cpp:412-415 | writing `x` at the tail and advancing it appends `x` to the ring contents |
| V4l2Adapter.RingPop | components/mipi_dsi_cam/mipi_dsi_cam_v4l2_adapter.cpp:514-518 | advancing the head drops the front of the ring contents |
| V4l2Adapter.RingEmptyOk | components/mipi_dsi_cam/mipi_dsi_cam_v4l2_adapter.cpp:337-341 | an all-free pool with an empty ring satisfies the ring invariant |
| V4l2Adapter.RingPushOk | components/mipi_dsi_cam/mipi_dsi_cam_v4l2_adapter.cpp:405-415 | a free element can always be queued (the ring is not full), and queuing it keeps the invariant and appends its index |
| V4l2Adapter.RingPopOk | components/mipi_dsi_cam/mipi_dsi_cam_v4l2_adapter.cpp:479-486 | the head holds the oldest queued index, whose element is driver-owned; dequeuing keeps the invariant and drops the front |
| V4l2Adapter.Released | components/mipi_dsi_cam/mipi_dsi_cam_v4l2_adapter.cpp:19-35 | every element is free again, with its valid size kept |
| V4l2Adapter.FreshPool | components/mipi_dsi_cam/mipi_dsi_cam_v4l2_adapter.cpp:315-327 | a created pool of `n` buffers is all free and empty |
| V4l2Adapter.EnumFormat | components/mipi_dsi_cam/mipi_dsi_cam_v4l2_adapter.cpp:212-232 | NOT_SUPPORTED for a non-capture type; NOT_FOUND for an index of 2 or more; otherwise OK with RGB565 or SBGGR8 |
| V4l2Adapter.EnumFormatListsEachOnce | components/mipi_dsi_cam/mipi_dsi_cam_v4l2_adapter.cpp:219-228 | indices 0 and 1 list RGB565 and then SBGGR8, two different formats |
| V4l2Adapter.Context.constructor | components/mipi_dsi_cam/mipi_dsi_cam_v4l2_adapter.cpp:55-70 | a zeroed context for the camera's size: no buffers, not streaming, empty ring, counters 0 |
| V4l2Adapter.Context.ResetQueueState | components/mipi_dsi_cam/mipi_dsi_cam_v4l2_adapter.cpp:19-35 | counters and ring indices zeroed; elements released only when asked; `queue_order[0 .. buffer_count)` zeroed only when asked; nothing else changes |
| V4l2Adapter.Context.Reqbufs | components/mipi_dsi_cam/mipi_dsi_cam_v4l2_adapter.cpp:237-347 | rejects a non-capture type or non-MMAP memory (NOT_SUPPORTED) and streaming (INVALID_STATE) without change; otherwise the outcome `Reallocated` states, preserving the ring invariant |
| V4l2Adapter.Context.ReleaseBuffers | components/mipi_dsi_cam/mipi_dsi_cam_v4l2_adapter.cpp:262-268 | the ring is reset, and there is no pool and no `queue_order` afterwards |
| V4l2Adapter.Context.ReplaceBuffers | components/mipi_dsi_cam/mipi_dsi_cam_v4l2_adapter.cpp:297-346 | the count is clamped to 8 and written back; 0 frees everything; NO_MEM exactly when an allocation fails; success gives a fresh free pool, a zeroed `queue_order`, and an empty ring with head = tail = 0 |
| V4l2Adapter.Context.InstallQueueOrder | components/mipi_dsi_cam/mipi_dsi_cam_v4l2_adapter.cpp:329-341 | a fresh zeroed `queue_order` of `n` entries, with `buffer_count = n` and an empty ring |
| V4l2Adapter.Context.Querybuf | components/mipi_dsi_cam/mipi_dsi_cam_v4l2_adapter.cpp:349-377 | INVALID_ARG exactly for a missing pool or an index out of range; otherwise length = buffer size, offset = index, and the QUEUED flag exactly when the index is in the ring |
| V4l2Adapter.Context.Qbuf | components/mipi_dsi_cam/mipi_dsi_cam_v4l2_adapter.cpp:379-424 | INVALID_ARG for a missing pool or a bad index, INVALID_STATE for an already-queued buffer, each with no change; success marks the element driver-owned with size 0, sets `queue_order[tail] := index`, `tail := (tail+1) mod buffer_count` and `queued_count += 1`, appends the index to the queue, and keeps the ring invariant |
| V4l2Adapter.Context.Dqbuf | components/mipi_dsi_cam/mipi_dsi_cam_v4l2_adapter.cpp:426-526 | INVALID_STATE without buffers or streaming; empty queue: only `drop_count` increments (head, tail, elements and counts unchanged), NOT_FOUND; no frame: NOT_FOUND, no change; no data: INVALID_STATE, no change; success hands out the oldest queued buffer with bytesused = min(frame, buffer), sequence = old frame count, offset = index, then frees it, advances the head and increments `frame_count` |
| V4l2Adapter.Context.CountDrop | components/mipi_dsi_cam/mipi_dsi_cam_v4l2_adapter.cpp:436-440 | the empty-queue path increments `drop_count` with u32 wrap and keeps the invariant and every other field |
| V4l2Adapter.Context.ReleaseHead | components/mipi_dsi_cam/mipi_dsi_cam_v4l2_adapter.cpp:513-519 | the head buffer is the oldest queued one; it becomes free with the copied size; the head advances mod `buffer_count` and the queue loses its front |
| V4l2Adapter.Context.Stop | components/mipi_dsi_cam/mipi_dsi_cam_v4l2_adapter.cpp:167-210 | NOT_SUPPORTED for a non-capture type and OK without change when not streaming; otherwise streaming ends, every buffer is released, the ring is emptied, `queue_order` is zeroed, and both counters are 0 |
| VideoBuffers.FirstFree | components/h264/h264_encoder.cpp:305-313 | the lowest free element, or -1 exactly when none is free |
| VideoBuffers.FreeCountZero | components/h264/h264_encoder.cpp:305-313 | the free count is 0 exactly when there is no free element |
| VideoBuffers.FreeCountUpdate | components/h264/h264_encoder.cpp:305-313 | replacing one element changes the free count by exactly that element's change in freedom |
| VideoBuffers.FreshElements | components/h264/h264_encoder.cpp:146-163 | `n` free, empty elements, all counted free |
| VideoBuffers.VideoBuffer.constructor | components/h264/h264_encoder.cpp:146-152 | a created pool has every element free and empty |
| VideoBuffers.VideoBuffer.Claim | components/h264/h264_encoder.cpp:305-313 | the scan claims exactly the lowest free element (`FirstFree`) and marks it, or changes nothing and returns -1 |
| VideoBuffers.VideoBuffer.SetValidSize | components/h264/h264_encoder.cpp:316 | only that element's valid size changes |
| VideoBuffers.VideoBuffer.SetState | components/h264/h264_encoder.cpp:326-330 | only that element's state changes |
| CodecSession.InputSize | components/h264/h264_encoder.cpp:146-152 | width × height × 2 bytes, when that fits 32 bits |
| CodecSession.OutputSize | components/h264/h264_encoder.cpp:154-163 | width × height bytes, when that fits 32 bits |
| CodecSession.StartStatus | components/h264/h264_encoder.cpp:101-245 | OK exactly when every set-up step succeeds; NO_MEM exactly when the device opened but a pool could not be created; FAIL otherwise |
| CodecSession.Release | components/h264/h264_encoder.cpp:326-330 | the element is FREE and the pool keeps its size |
| CodecSession.Encode | components/h264/h264_encoder.cpp:300-407 | OK exactly when both pools have a free element and every queue, stream start and capture dequeue succeeds; the result is NO_MEM, FAIL or OK; the encoded size is `bytesused` exactly on success |
| CodecSession.AfterClaims | components/h264/h264_encoder.cpp:333-401 | with both elements claimed, OK exactly when the output queue, the stream starts and the capture dequeue succeed |
| CodecSession.NoFreeInputChangesNothing | components/h264/h264_encoder.cpp:305-313 | with no free input element, the result is NO_MEM and nothing changes |
| CodecSession.NoFreeOutputReleasesInput | components/h264/h264_encoder.cpp:333-344 | with no free output element, the result is NO_MEM; the claimed input is FREE again and nothing else changes |
| CodecSession.StreamOnFailureKeepsClaims | components/h264/h264_encoder.cpp:361-376 | a failed stream start returns FAIL and leaves both claimed elements owned, one fewer free in each pool |
| CodecSession.EncodeSuccessShape | components/h264/h264_encoder.cpp:394-401 | on success the input element is freed with the source size, the output element holds `bytesused` in the produced state, and both streams are on |
| CodecSession.InputFreeCountRestored | components/h264/h264_encoder.cpp:326-401 | when no stream start can fail, the encode leaves the input pool with exactly the free elements it started with |
| CodecSession.QueueFailureReleasesClaims | components/h264/h264_encoder.cpp:353-386 | a failed input queue, output queue or capture dequeue returns FAIL and leaves both pools with exactly the free elements they started with |
| CodecSession.OutputNeverReleased | components/h264/h264_encoder.cpp:394-401 | the output free count never grows, and each success uses up one output element |
| CodecSession.Run | components/h264/h264_encoder.cpp:300-407 | a sequence of encodes keeps the output pool's size and succeeds at most once per job |
| CodecSession.RunSuccessesBounded | components/h264/h264_encoder.cpp:394-401 | across any run, successes plus remaining free outputs never exceed the free outputs at the start |
| CodecSession.ExhaustedOutputRefuses | components/h264/h264_encoder.cpp:333-344 | once no output is free, no encode succeeds; with a queued free input it returns NO_MEM |
| CodecSession.FourthEncodeRefused | components/h264/h264_encoder.cpp:138-163 | on fresh three-element pools, after three successes the output pool is empty and the next encode returns NO_MEM |
| CodecSession.IsKeyframe | components/h264/h264_encoder.cpp:379 | frame 0 is a key frame, and with a GOP of 0 or 1 every frame is |
| CodecSession.KeyframeCadence | components/h264/h264_encoder.cpp:379 | within each group of `g` frames exactly the first is a key frame |
| CodecSession.DivModUnique | components/h264/h264_encoder.cpp:379 | a quotient and an in-range remainder that rebuild `x` determine `x % g` |
| CodecSession.CodecDevice.constructor | components/h264/h264_encoder.h:84-85 | fd -1, not initialised, no pools |
| CodecSession.CodecDevice.Start | components/h264/h264_encoder.cpp:124-245 | the status is `StartStatus`; success gives fresh free pools of 3 elements of the input and output sizes; every failure leaves no pools and fd either the failed `open` result or -1 |
| CodecSession.CodecDevice.Stop | components/h264/h264_encoder.cpp:247-279 | no change when uninitialised; otherwise streams off, pools gone, fd -1, not initialised |
| CodecSession.CodecDevice.ControlsReachDevice | components/h264/h264_encoder.cpp:74-83 | a setter's control reaches the driver exactly when the session is initialised |
| CodecSession.CodecDevice.EncodeRound | components/h264/h264_encoder.cpp:300-407 | the loops and element updates give exactly `Encode`'s status, encoded size and new pools |
| CodecSession.CodecDevice.FinishRound | components/h264/h264_encoder.cpp:346-401 | the second half gives exactly `AfterClaims`'s outcome |
| H264Component.H264Encoder.constructor | components/h264/h264_encoder.h:84-88 | no camera, 2 Mbit/s, GOP 30, frame count 0, device closed |
| H264Component.H264Encoder.SetCamera | components/h264/h264_encoder.h:38 | stores the camera and nothing else |
| H264Component.H264Encoder.SetBitrate | components/h264/h264_encoder.cpp:71-84 | stores the bitrate unchanged; the control is sent exactly when initialised |
| H264Component.H264Encoder.SetGopSize | components/h264/h264_encoder.cpp:86-99 | stores `max(1, gop)`; the control is sent exactly when initialised |
| H264Component.H264Encoder.Setup | components/h264/h264_encoder.cpp:44-61 | without a camera it marks the component failed and leaves the device; otherwise it is failed exactly when initialisation did not succeed |
| H264Component.H264Encoder.InitInternal | components/h264/h264_encoder.cpp:101-245 | already initialised: OK, no change; otherwise `StartStatus`; any failure leaves no pools and a negative fd |
| H264Component.H264Encoder.DeinitInternal | components/h264/h264_encoder.cpp:247-279 | a no-op when uninitialised; otherwise streams off, pools gone, fd -1 |
| H264Component.H264Encoder.EncodeInternal | components/h264/h264_encoder.cpp:300-407 | the shared round with ALLOCATED claims; on success the key flag is `IsKeyframe(old frame count)` and the counter increments, otherwise it is unchanged |
| H264Component.H264Encoder.EncodeFrame | components/h264/h264_encoder.cpp:289-298 | FAIL when uninitialised and INVALID_ARG on a null pointer, both without change; otherwise `Encode`'s status, size and pools, and on success the key flag from the old frame count and the count incremented; camera, bitrate, GOP size, failed flag and the descriptor never change |
| H264Component.H264Encoder.EncodeFrameWithBuffer | components/h264/h264_encoder.cpp:281-287 | FAIL without change when uninitialised or given no element, including the contents of both buffer pools; otherwise `Encode` of its valid bytes, and on success the key flag from the old frame count and the count incremented; camera, bitrate, GOP size, failed flag and the descriptor never change |
| JpegComponent.ClampQuality | components/jpeg/jpeg_encoder.cpp:65 | in [1, 100]; unchanged inside it; 0 → 1, above 100 → 100 |
| JpegComponent.JPEGEncoder.constructor | components/jpeg/jpeg_encoder.h:72-74 | no camera, quality 80, device closed |
| JpegComponent.JPEGEncoder.SetCamera | components/jpeg/jpeg_encoder.h:38 | stores the camera and nothing else |
| JpegComponent.JPEGEncoder.SetQuality | components/jpeg/jpeg_encoder.cpp:64-78 | stores the clamped quality; the control is sent exactly when initialised |
| JpegComponent.JPEGEncoder.Setup | components/jpeg/jpeg_encoder.cpp:39-55 | without a camera it marks the component failed; otherwise it is failed exactly when initialisation did not succeed |
| JpegComponent.JPEGEncoder.InitInternal | components/jpeg/jpeg_encoder.cpp:80-219 | already initialised: OK, no change; otherwise `StartStatus`; failure leaves no pools and a negative fd |
| JpegComponent.JPEGEncoder.DeinitInternal | components/jpeg/jpeg_encoder.cpp:221-253 | a no-op when uninitialised; otherwise streams off, pools gone, fd -1 |
| JpegComponent.JPEGEncoder.EncodeInternal | components/jpeg/jpeg_encoder.cpp:272-373 | exactly `Encode` with ALLOCATED claims: the encoded size is `bytesused` and the output holds it |
| JpegComponent.JPEGEncoder.EncodeFrame | components/jpeg/jpeg_encoder.cpp:262-270 | FAIL when uninitialised and INVALID_ARG on a null pointer, both without change; otherwise `encode_internal_` |
| JpegComponent.JPEGEncoder.EncodeFrameWithBuffer | components/jpeg/jpeg_encoder.cpp:255-260 | FAIL without change when uninitialised or given no element, including the contents of both buffer pools |
| MipiEncoders.MipiDsiCamJPEGEncoder.constructor | components/mipi_dsi_cam/mipi_dsi_cam_encoders.h:52-54 | bound to its camera, quality 80, device closed |
| MipiEncoders.MipiDsiCamJPEGEncoder.Init | components/mipi_dsi_cam/mipi_dsi_cam_encoders.cpp:49-153 | already initialised: OK, no change; otherwise stores the clamped quality and returns `StartStatus`; failure leaves no pools and a negative fd |
| MipiEncoders.MipiDsiCamJPEGEncoder.Deinit | components/mipi_dsi_cam/mipi_dsi_cam_encoders.cpp:155-178 | idempotent: OK always; afterwards uninitialised with no pools |
| MipiEncoders.MipiDsiCamJPEGEncoder.SetQuality | components/mipi_dsi_cam/mipi_dsi_cam_encoders.cpp:180-193 | stores the clamped quality; the control is sent exactly when initialised |
| MipiEncoders.MipiDsiCamJPEGEncoder.EncodeInternal | components/mipi_dsi_cam/mipi_dsi_cam_encoders.cpp:212-314 | exactly `Encode` with QUEUED claims and an ACTIVE output |
| MipiEncoders.MipiDsiCamJPEGEncoder.EncodeFrame | components/mipi_dsi_cam/mipi_dsi_cam_encoders.cpp:202-210 | FAIL when uninitialised, INVALID_ARG on a null pointer, both without change |
| MipiEncoders.MipiDsiCamJPEGEncoder.EncodeFrameWithBuffer | components/mipi_dsi_cam/mipi_dsi_cam_encoders.cpp:195-200 | FAIL without change when uninitialised or given no element, including the contents of both buffer pools |
| MipiEncoders.MipiDsiCamH264Encoder.constructor | components/mipi_dsi_cam/mipi_dsi_cam_encoders.h:101-105 | bound to its camera, 2 Mbit/s, GOP 30, frame count 0, device closed |
| MipiEncoders.MipiDsiCamH264Encoder.Init | components/mipi_dsi_cam/mipi_dsi_cam_encoders.cpp:329-445 | already initialised: OK, no change; otherwise stores the bitrate, `max(1, gop)` and frame count 0, then returns `StartStatus` |
| MipiEncoders.MipiDsiCamH264Encoder.Deinit | components/mipi_dsi_cam/mipi_dsi_cam_encoders.cpp:447-470 | idempotent: a no-op when uninitialised; otherwise streams off, pools gone, fd -1 |
| MipiEncoders.MipiDsiCamH264Encoder.SetBitrate | components/mipi_dsi_cam/mipi_dsi_cam_encoders.cpp:472-484 | stores the bitrate unchanged |
| MipiEncoders.MipiDsiCamH264Encoder.SetGopSize | components/mipi_dsi_cam/mipi_dsi_cam_encoders.cpp:486-498 | stores `max(1, gop)` |
| MipiEncoders.MipiDsiCamH264Encoder.EncodeInternal | components/mipi_dsi_cam/mipi_dsi_cam_encoders.cpp:519-627 | `Encode` with QUEUED/ACTIVE; on success the key flag is `IsKeyframe(old frame count)` and the counter increments |
| MipiEncoders.MipiDsiCamH264Encoder.EncodeFrame | components/mipi_dsi_cam/mipi_dsi_cam_encoders.cpp:508-517 | FAIL when uninitialised, INVALID_ARG on a null pointer, both without change; otherwise `Encode`'s status, size and pools, and on success the key flag from the old frame count and the count incremented; bitrate, GOP size and the descriptor never change |
| MipiEncoders.MipiDsiCamH264Encoder.EncodeFrameWithBuffer | components/mipi_dsi_cam/mipi_dsi_cam_encoders.cpp:500-506 | FAIL without change when uninitialised or given no element, including the contents of both buffer pools; otherwise `Encode` of its valid bytes, and on success the key flag from the old frame count and the count incremented; bitrate, GOP size and the descriptor never change |
| AppVideo.AsWrittenAcceptsFailedMapping | components/mipi_dsi_cam/app_video.c:207-211 | a failed `mmap` returns `MAP_FAILED` with ENOMEM, and the NULL test as written accepts it |
| AppVideo.AsWrittenAcceptsFullTable | components/mipi_dsi_cam/app_video.c:207-211 | the same happens when the mapping table is full |
| AppVideo.AcceptedMappingIsRecorded | components/mipi_dsi_cam/app_video.c:207-211 | with the `MAP_FAILED` test, a mapping is accepted exactly when `mmap` succeeded, and an accepted address is non-NULL and recorded |
| AppVideo.FirstNull | components/mipi_dsi_cam/app_video.c:245-253 | the index of the first NULL among the first `n` entries, or `n` |
| AppVideo.AppVideoState.constructor | components/mipi_dsi_cam/app_video.c:38-48 | zero-initialised static state |
| AppVideo.AppVideoState.SetBufs | components/mipi_dsi_cam/app_video.c:171-234 | a count outside [2, 6] is FAIL before any change; otherwise the memory mode is USERPTR exactly when `fb` is given; every later failure closes the descriptor; USERPTR succeeds exactly when every buffer is queried, non-null and queued, and stores the caller's pointers; MMAP succeeds exactly when the request succeeds, the mapping table has a free record for every buffer and every buffer is queried, allocated and queued, and then stores recorded, non-failed mappings; on every path the image width and height and the entries from `fb_num` on are unchanged, and in USERPTR mode each of the first `fb_num` entries holds its old value or the caller's pointer |
| AppVideo.AppVideoState.MapBuffers | components/mipi_dsi_cam/app_video.c:194-227 | with the corrected `MAP_FAILED` test (see Findings), the MMAP loop succeeds exactly when the mapping table has a free record for every buffer and every buffer is queried, allocated and queued; then every entry is a recorded, non-failed mapping and the size is the last buffer's length; mappings are never lost, and the memory mode, width, height and entries from `fb_num` on are unchanged |
| AppVideo.AppVideoState.TakeUserBuffers | components/mipi_dsi_cam/app_video.c:194-227 | the USERPTR loop succeeds exactly when every buffer is queried, non-null and queued; then the first `fb_num` entries are the caller's pointers and the size is the last buffer's length; on any path each entry holds its old value or the caller's pointer, and the memory mode, width, height and entries from `fb_num` on are unchanged |
| AppVideo.AppVideoState.GetBufs | components/mipi_dsi_cam/app_video.c:236-256 | a count outside [2, 6] is FAIL without change; otherwise the entries before the first NULL are copied in order, later ones are untouched, and the result is OK exactly when there is no NULL |
| AppVideo.AppVideoState.GetBufSize | components/mipi_dsi_cam/app_video.c:258-263 | width × height × 2 for RGB565 and × 3 otherwise, when that fits 32 bits |
| ConfigSchema.ShowNat | components/lvgl_camera_display/__init__.py:28 | a non-empty string of decimal digits |
| ConfigSchema.DigitsValueShowNat | components/lvgl_camera_display/__init__.py:28 | reading back the printed digits of `n` gives `n` |
| ConfigSchema.ParseMillis | components/lvgl_camera_display/__init__.py:28 | only a period of one or more digits followed by `ms` is accepted |
| ConfigSchema.ParseShowMillis | components/lvgl_camera_display/__init__.py:28 | every whole number of milliseconds, written out with `ms`, parses back to itself |
| ConfigSchema.DefaultIntervalIs33 | components/lvgl_camera_display/__init__.py:28 | the default "33ms" is 33 ms |
| ConfigSchema.ZeroPeriodAccepted | components/lvgl_camera_display/__init__.py:28 | the period validator accepts "0ms" as zero milliseconds, its bound being inclusive |
| ConfigSchema.CheckKind | components/h264/__init__.py:21-24 | an accepted value conforms to its kind; an integer key accepts exactly the values in its inclusive range; a refusal names the key |
| ConfigSchema.CheckField | components/h264/__init__.py:20-25 | a given value is checked; an absent required key is refused; an absent optional key takes its checked default; an absent ID is generated |
| ConfigSchema.Validate | components/h264/__init__.py:20-25 | accepted exactly when every key is; the result has exactly the schema's keys, each with its own validator's value; a refusal names a schema key |
| ConfigSchema.ValidatedIsShaped | components/h264/__init__.py:27-37 | an accepted configuration has every key `to_code` reads, with its kind's shape |
| ConfigSchema.ManifestRequirements | components/lvgl_camera_display/__init__.py:11-12 | the encoders need `mipi_dsi_cam`; the display needs only `lvgl`, since it loads `esp32_camera` itself |
| ConfigSchema.SchemasWellFormed | components/lvgl_camera_display/__init__.py:24-35 | each schema's keys are distinct and only IDs are generated |
| ConfigSchema.H264Defaults | components/h264/__init__.py:20-25 | with only a camera, the configuration is accepted with a generated ID, 2000000 and 30 |
| ConfigSchema.H264CameraRequired | components/h264/__init__.py:22 | a missing `camera_id`, or one that is not a declared `MipiDsiCam`, refuses the configuration |
| ConfigSchema.H264Ranges | components/h264/__init__.py:23-24 | a given bitrate is accepted exactly in [100000, 20000000], a GOP size exactly in [1, 300] |
| ConfigSchema.JpegDefaults | components/jpeg/__init__.py:13-16 | with nothing given: a generated ID and quality 80; a given quality is accepted exactly in [1, 100] |
| ConfigSchema.LvglCameraDisplayDefaults | components/lvgl_camera_display/__init__.py:24-35 | with only a camera: 33 ms, direct mode on, PPA on, rotation 0, mirror_x off, mirror_y on |
| ConfigSchema.RotationRightAngles | components/lvgl_camera_display/__init__.py:31 | rotation is accepted exactly for 0, 90, 180 and 270 |
| CodeGen.SettersFramed | components/lvgl_camera_display/__init__.py:43-50 | when the calls are exactly a contiguous block, the setters are theirs, in order |
| CodeGen.ShapedConfigs | components/h264/__init__.py:27-37 | a configuration shaped by a schema has every key its `to_code` reads |
| CodeGen.H264Plan | components/h264/__init__.py:27-37 | seven statements |
| CodeGen.JpegPlan | components/jpeg/__init__.py:18-22 | four statements |
| CodeGen.LvglCameraDisplayPlan | components/lvgl_camera_display/__init__.py:38-57 | twelve statements with PPA, eleven without |
| CodeGen.H264PlanProperties | components/h264/__init__.py:27-37 | every variable is declared before use; setters in the order camera, bitrate, GOP; only `USE_H264_ENCODER` defined, last; each setter carries its configured value |
| CodeGen.JpegPlanProperties | components/jpeg/__init__.py:18-22 | declared before use; the only setter is `set_quality` with the configured value; no camera lookup and no `set_camera`; only `USE_JPEG_ENCODER` defined, last |
| CodeGen.LvglCameraDisplayPlanProperties | components/lvgl_camera_display/__init__.py:38-57 | declared before use; the seven setters in order; the library after every setter; `USE_PPA_ACCELERATION` defined exactly when `use_ppa`, and nothing else defined |
| CodeGen.DeclaredBeforeUseByIndex | components/h264/__init__.py:28-33 | a plan whose uses name only the component (index 0) or the camera looked up at index 2 declares before use |
| CodeGen.DefinesOfPlan | components/lvgl_camera_display/__init__.py:56-57 | a symbol is defined exactly when an `add_define` of it is emitted |
| CodeGen.H264DefaultsReachCode | components/h264/__init__.py:23-36 | with only a camera configured, the generated program calls `set_bitrate(2000000)` and `set_gop_size(30)` |
| CodeGen.CodeGenerator.Emit | components/h264/__init__.py:33 | one `cg.add` appends exactly its statement after those already emitted |
| CodeGen.CodeGenerator.H264ToCode | components/h264/__init__.py:27-37 | appends exactly `H264Plan` |
| CodeGen.CodeGenerator.JpegToCode | components/jpeg/__init__.py:18-22 | appends exactly `JpegPlan` |
| CodeGen.CodeGenerator.LvglCameraDisplayToCode | components/lvgl_camera_display/__init__.py:38-57 | appends exactly `LvglCameraDisplayPlan` |

## Left out

- Device I/O is not modelled: `open`, `close`, `ioctl`, `stat`, device registration, `esp_video_buffer_create`/`destroy`/`reset` internals, `heap_caps_*`, `memcpy`, `gettimeofday` and every `ESP_LOG*`. Each becomes an oracle parameter or is dropped.
- The encoders' `VIDIOC_S_PARM` and `VIDIOC_S_CTRL` calls during set-up are best-effort in the source (failures are only logged), so they have no outcome in the model. The input-side `VIDIOC_DQBUF` after an encode is likewise only logged.
- The H.264 wrappers test the key-frame output pointer for null before writing it; the model returns an `Option` instead.
- Frame data is not modelled: the bytes copied into buffers, the encoded bitstream and the source pixels. Sizes are.
- `v4l2_start`'s body is not part of this model, so `streaming` is a field callers may set. `v4l2_querycap`, the adapter's `init`/`deinit` and the camera's `capture_frame`/`get_image_data` are oracles or left out.
- The adapter's older `reqbufs` body (mipi_dsi_cam_v4l2_adapter.cpp:270-296) and linear-scan `dqbuf` (461-477) are not modelled; the ring versions are.
- The context header lacks the `queue_order`, `queue_head` and `queue_tail` fields that the adapter uses; the model adds them.
- V4l2Adapter.Context.Qbuf: the source's checks for a missing `queue_order` and a full ring (mipi_dsi_cam_v4l2_adapter.cpp:389-392 and 405-408) are not tested, because under the ring invariant they cannot fire; `RingPushOk` proves the ring is never full.
- V4l2Adapter.Context.Dqbuf: likewise the checks for a missing `queue_order` and a free element at the head are proved unreachable instead of being tested.
- V4l2Adapter.Context.Dqbuf: each element's `index` is taken to be its position in the pool, as `esp_video_buffer_create` sets it. The buffer-pool code is not part of this model, so the model reports `queue_order[head]` as the index.
- The `mmap` shim's address hint, protection and flags are ignored, as in the source. The mapping is a fresh heap allocation, not driver memory.
- `app_video.c`'s stream task, event groups, `app_video_main` and `app_video_open` are FreeRTOS concurrency and device I/O.
- AppVideo.AppVideoState.SetBufs / AppVideo.AppVideoState.MapBuffers: the MMAP branch uses the corrected `MAP_FAILED` test (see Findings). The code as written (app_video.c:207-211) tests only for NULL: when the table is full or the allocation fails, it stores `MAP_FAILED` and goes on. The model stops with FAIL instead, and does not state which `MAP_FAILED` entries the as-written code would store.
- AppVideo.AppVideoState.GetBufSize: the format is the build-time `APP_VIDEO_FMT`, passed as a flag. Wrap-around beyond 32 bits is computed but stated only for products that fit.
- The `_IOC` macro of videodev2.h is cut off after its third term (line 70). The model uses the complete macro of ioctl.h, whose layout the lemmas show to be the same.
- V4l2Macros.Fourcc: the shipped headers only use `v4l2_fourcc` (videodev2.h:1358-1375) and never define it, nor the values of `V4L2_BUF_TYPE_VIDEO_CAPTURE`, `V4L2_MEMORY_MMAP`, `V4L2_MEMORY_USERPTR` and `V4L2_BUF_FLAG_TIMESTAMP_MONOTONIC` (used at mipi_dsi_cam_v4l2_adapter.cpp:499). The model takes the macro and these values from the standard Linux `videodev2.h`.
- Packed struct layouts, `sizeof`-dependent `VIDIOC_*` numbers and the duplicated definitions in videodev2.h are not modelled.
- The ESPHome `cv`/`cg` libraries are not part of this model; their semantics are modelled only as these files use them.
  - `cv.int_range(step=…)` is taken to accept values reached from `min` in whole steps. This reading of `step` is an assumption of the model: the `cv` library's own `int_range` is not available here.
  - `cv.positive_time_period_milliseconds` is taken as a range check with an inclusive lower bound of zero, so "0ms" is accepted.
  - `cv.use_id` is a lookup in a table of declared IDs with their classes.
  - `cv.GenerateID` takes the generated ID as a parameter.
  - Boolean strings such as "on" are not accepted.
  - Periods other than `<digits>ms` (seconds, minutes, fractions) are not parsed.
  - Keys outside the schema and the `COMPONENT_SCHEMA` keys (such as `setup_priority`) are not validated.
- ConfigSchema.RotationRightAngles: rests on the `step` reading above. If the `cv` library's `int_range` takes no `step` argument, the display schema (lvgl_camera_display/__init__.py:31) fails when the module is loaded, and the lemma describes the intended schema rather than one that loads.
- `H264Component.H264Encoder.InitInternal` does not reset the frame counter, as in the source; a failed `open` leaves its negative result in the fd, as in the source.
- The LVGL display component itself (`lvgl_camera_display.cpp`: canvas, PPA transforms, polling, FPS floats), the RTSP server, the ISP pipeline header and the SDK registration glue are not modelled.
- Destructors and `dump_config` are not modelled.

## Findings

| source | as written | input that shows it | evidently intended | confidence | as-written member | corrected member |
|---|---|---|---|---|---|---|
| components/mipi_dsi_cam/app_video.c:207-211 | `set_bufs` treats the `mmap` result as failed only when it is NULL | any MMAP-mode buffer set-up where the heap allocation fails or all 32 records of the shim's table are taken: the shim returns `MAP_FAILED` (components/lvgl_camera_display/mman.cpp:45-49, 60-65), which is not NULL, so it is stored as a frame buffer and queued | test against `MAP_FAILED`, the failure value of `mmap` | not executed | AppVideo.AsWrittenAcceptsFailedMapping | AppVideo.AcceptedMappingIsRecorded |
