/** The part of the WebGPU device the orchestration code drives. Kernels are
    not visible, so the device is an append-only timeline of what the host
    issues: queue writes, submitted command buffers (each a list of encoder
    operations) and the map requests of host-readable buffers, interleaved
    with the host-side effects (audio, HUD, overlay, local storage). A
    host-readable buffer follows the `GPUBuffer.mapState` machine of the
    WebGPU standard ("unmapped", "pending", "mapped"). */
module Device {
  import opened Js

  datatype BufferId =
    | ParamsBuffer | CameraBuffer
    | StateA | StateB | Genomes | FreeList | FreeIds
    | StatsBuffer | StatsRead
    | SaveReadback | ResolveBuffer
    | StagingState(count: nat) | StagingGen(count: nat)

  datatype TextureId = EnvA | EnvB
  datatype PipelineId = StepPipeline | PlumePipeline | StatsPipeline | RenderPipeline
  datatype GroupId = StepGroup | PlumeGroup | StatsGroup | RenderGroup
  datatype QuerySetId = TimestampQueries

  /** One 32-bit lane of a host-side ArrayBuffer, written through a
      Uint32Array (`U32`) or a Float32Array (`F32`; precision idealised). */
  datatype Word = U32(u: nat) | F32(x: real)

  datatype EncoderOp =
    | Copy(src: BufferId, srcOffset: nat, dst: BufferId, dstOffset: nat, size: nat)
    | Dispatch(pipeline: PipelineId, group: GroupId, x: nat, y: nat)
    | Draw(pipeline: PipelineId, group: GroupId, vertices: nat, instances: nat)
    | ResolveQueries(querySet: Option<QuerySetId>, first: nat, count: nat, dst: BufferId, offset: nat)
    | EncoderWrite(dst: BufferId, offset: nat, words: seq<Word>)

  datatype Event =
    | Submit(ops: seq<EncoderOp>)
    | WriteWords(dst: BufferId, offset: nat, words: seq<Word>)
    | WriteBytes(dst: BufferId, offset: nat, bytes: seq<Byte>)
    | MapRequested(buffer: BufferId, accepted: bool)
    | MapSettled(buffer: BufferId, ok: bool)
    | Unmapping(buffer: BufferId)
    | Audio(biomass: Val)
    | Hud(count: Val, fitness: Val)
    | Overlay(frameTime: Val)
    | StoreItem(key: string, value: string, ok: bool)

  datatype MapState = Unmapped | Pending | Mapped

  /** `mapAsync` starts a map only from "unmapped"; on a pending or mapped
      buffer the promise rejects with OperationError and nothing changes. */
  function AfterMapAsync(m: MapState): MapState
  {
    if m == Unmapped then Pending else m
  }

  /** The state after a pending map settles: mapped when it resolves,
      unmapped when it rejects (device lost, or an abort). */
  function AfterSettle(ok: bool): MapState
  {
    if ok then Mapped else Unmapped
  }

  /** What a read-back continuation logs: the settle, then `unmap` when it resolved. */
  function ReadSettleEvents(id: BufferId, ok: bool): seq<Event>
  {
    [MapSettled(id, ok)] + (if ok then [Unmapping(id)] else [])
  }

  /** The number of times `e` occurs in `es`. */
  function Count(es: seq<Event>, e: Event): nat
  {
    if |es| == 0 then 0 else (if es[|es| - 1] == e then 1 else 0) + Count(es[..|es| - 1], e)
  }

  lemma {:induction false} CountAppend(a: seq<Event>, b: seq<Event>, e: Event)
    ensures Count(a + b, e) == Count(a, e) + Count(b, e)
    decreases |b|
  {
    if |b| > 0 {
      assert (a + b)[..|a + b| - 1] == a + b[..|b| - 1];
      CountAppend(a, b[..|b| - 1], e);
    } else {
      assert a + b == a;
    }
  }

  lemma {:induction false} CountAbsent(es: seq<Event>, e: Event)
    requires forall i :: 0 <= i < |es| ==> es[i] != e
    ensures Count(es, e) == 0
    decreases |es|
  {
    if |es| > 0 {
      CountAbsent(es[..|es| - 1], e);
    }
  }

  /** Little-endian value of a byte string. */
  function LittleEndian(b: seq<Byte>): nat
  {
    if |b| == 0 then 0 else b[0] + 256 * LittleEndian(b[1..])
  }

  /** The typed-array view of `width`-byte lanes over a mapped range
      (Uint32Array: width 4, BigUint64Array: width 8). The constructor throws
      RangeError unless the byte length is a multiple of the width, so the
      range is required to split into whole lanes. */
  function Lanes(b: seq<Byte>, width: nat): (r: seq<int>)
    requires width == 4 || width == 8
    requires |b| % width == 0
    ensures |r| * width == |b|
    decreases |b|
  {
    if |b| == 0 then []
    else
      var rest := Lanes(b[width..], width);
      assert (|rest| + 1) * width == |rest| * width + width;
      [LittleEndian(b[..width])] + rest
  }

  /** The append-only record of everything the host issues, in order. */
  class Timeline {
    var events: seq<Event>

    constructor ()
      ensures events == []
    {
      events := [];
    }

    method Append(e: Event)
      modifies this
      ensures events == old(events) + [e]
    {
      events := events + [e];
    }
  }

  /** A buffer created with MAP_READ or MAP_WRITE usage. `range` is what the
      mapped range holds once a map has resolved. */
  class MappableBuffer {
    const tl: Timeline
    const id: BufferId
    const size: nat
    var state: MapState
    var range: seq<Byte>

    constructor (tl: Timeline, id: BufferId, size: nat)
      ensures this.tl == tl && this.id == id && this.size == size
      ensures state == Unmapped && range == []
    {
      this.tl := tl;
      this.id := id;
      this.size := size;
      state := Unmapped;
      range := [];
    }

    /** `mapAsync(mode)`: `accepted` is false when the promise is rejected
        straight away because the buffer is not unmapped. */
    method MapAsync() returns (accepted: bool)
      modifies this, tl
      ensures accepted <==> old(state) == Unmapped
      ensures state == AfterMapAsync(old(state)) && range == old(range)
      ensures tl.events == old(tl.events) + [MapRequested(id, accepted)]
    {
      accepted := state == Unmapped;
      if accepted {
        state := Pending;
      }
      tl.Append(MapRequested(id, accepted));
    }

    /** The device settles a pending map; on success the range holds `bytes`. */
    method Settle(ok: bool, bytes: seq<Byte>)
      requires state == Pending && |bytes| == size
      modifies this, tl
      ensures state == AfterSettle(ok)
      ensures range == if ok then bytes else old(range)
      ensures tl.events == old(tl.events) + [MapSettled(id, ok)]
    {
      state := AfterSettle(ok);
      if ok {
        range := bytes;
      }
      tl.Append(MapSettled(id, ok));
    }

    /** `getMappedRange()`: only legal while mapped. */
    method GetMappedRange() returns (r: seq<Byte>)
      requires state == Mapped
      ensures r == range
    {
      r := range;
    }

    /** `unmap()`: returns the buffer to "unmapped" and detaches every view
        created over the mapped range (callers apply `Detach` to theirs). */
    method Unmap()
      modifies this, tl
      ensures state == Unmapped && range == old(range)
      ensures tl.events == old(tl.events) + [Unmapping(id)]
    {
      state := Unmapped;
      tl.Append(Unmapping(id));
    }
  }
}
