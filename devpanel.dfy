/** `initDevPanel`: one shared 16-byte `resolveBuffer` that every `collect()`
    resolves two timestamp queries into, maps, views as two 64-bit words,
    unmaps, and turns into a frame time. */
module DevPanel {
  import opened Js
  import opened Device

  const RESOLVE_SIZE: nat := 16

  /** The synchronous part of `collect()`, up to its `await`: the resolve is
      submitted whatever the buffer's state (and whether or not the query
      set exists), then the map is requested with no in-flight check. */
  function CollectEvents(querySet: Option<QuerySetId>, m: MapState): seq<Event>
  {
    [ Submit([ResolveQueries(querySet, 0, 2, ResolveBuffer, 0)]),
      MapRequested(ResolveBuffer, m == Unmapped) ]
  }

  /** `Number(data[1] - data[0]) * 1e-6`. Two BigInt lanes give their exact,
      possibly negative, difference scaled to milliseconds; two undefined
      lanes give NaN; a BigInt mixed with anything else throws TypeError. */
  function Elapsed(first: Val, second: Val): (r: Result<Val>)
    ensures r.Ok? && r.value.Num? <==> first.Num? && second.Num?
    ensures first.Num? && second.Num? ==> r.value.x * 1000000.0 == second.x - first.x
    ensures first.Undefined? && second.Undefined? ==> r == Ok(NaN)
    ensures first.Num? != second.Num? ==> r == Err(TypeError)
  {
    match first
    case Num(a) =>
      (match second
       case Num(b) => Ok(Num((b - a) / 1000000.0))
       case _ => Err(TypeError))
    case _ =>
      if second.Num? then Err(TypeError) else Ok(NaN)
  }

  /** What the continuation of `collect()` resolves with once its map has
      resolved: the BigUint64Array is built while mapped but indexed after
      `unmap`, so both lanes read as undefined and the frame time is NaN. */
  function FrameTime(range: seq<Byte>): (r: Result<Val>)
    requires |range| == RESOLVE_SIZE
    ensures r == Ok(NaN)
  {
    var v := Detach(View(Lanes(range, 8), false));
    Elapsed(At(v, 0), At(v, 1))
  }

  /** On a view that is still attached the frame time is negative exactly
      when the end stamp is below the start stamp. */
  lemma ElapsedSign(range: seq<Byte>)
    requires |range| == RESOLVE_SIZE
    ensures var v := View(Lanes(range, 8), false);
            Elapsed(At(v, 0), At(v, 1)).Ok? &&
            (Elapsed(At(v, 0), At(v, 1)).value.x < 0.0 <==> Lanes(range, 8)[1] < Lanes(range, 8)[0])
  {
    assert |range[8..]| == 8 && |range[8..][8..]| == 0;
  }

  class Panel {
    const tl: Timeline
    const querySet: Option<QuerySetId>
    const resolveBuffer: MappableBuffer

    ghost predicate Valid()
      reads this, resolveBuffer
    {
      resolveBuffer.tl == tl && resolveBuffer.id == ResolveBuffer && resolveBuffer.size == RESOLVE_SIZE
    }

    /** `initDevPanel(device, querySet)`; `querySet` is absent when the
        adapter lacks the timestamp feature. */
    constructor (tl: Timeline, querySet: Option<QuerySetId>)
      ensures Valid() && this.tl == tl && this.querySet == querySet
      ensures fresh(resolveBuffer) && resolveBuffer.state == Unmapped
    {
      this.tl := tl;
      this.querySet := querySet;
      resolveBuffer := new MappableBuffer(tl, ResolveBuffer, RESOLVE_SIZE);
    }

    method Collect() returns (accepted: bool)
      requires Valid()
      modifies tl, resolveBuffer
      ensures accepted <==> old(resolveBuffer.state) == Unmapped
      ensures resolveBuffer.state == AfterMapAsync(old(resolveBuffer.state))
      ensures tl.events == old(tl.events) + CollectEvents(querySet, old(resolveBuffer.state))
    {
      tl.Append(Submit([ResolveQueries(querySet, 0, 2, ResolveBuffer, 0)]));
      accepted := resolveBuffer.MapAsync();
    }

    /** The rest of `collect()` once its map settles: `None` when the
        promise rejects (the map was rejected, or the subtraction threw). */
    method CollectSettle(ok: bool, bytes: seq<Byte>) returns (frameTime: Option<Val>)
      requires Valid() && resolveBuffer.state == Pending && |bytes| == RESOLVE_SIZE
      modifies tl, resolveBuffer
      ensures resolveBuffer.state == Unmapped
      ensures frameTime == if ok && FrameTime(bytes).Ok? then Some(FrameTime(bytes).value) else None
      ensures tl.events == old(tl.events) + ReadSettleEvents(ResolveBuffer, ok)
    {
      resolveBuffer.Settle(ok, bytes);
      if ok {
        var range := resolveBuffer.GetMappedRange();
        var data := View(Lanes(range, 8), false);
        resolveBuffer.Unmap();
        data := Detach(data);
        var diff := Elapsed(At(data, 0), At(data, 1));
        frameTime := if diff.Ok? then Some(diff.value) else None;
      } else {
        frameTime := None;
      }
    }
  }
}
