/** Direct access, traversal and flattening of data objects. */
module DataRegions {
  import opened Runs
  import opened Data

  /** What _dispatch_data_map_direct finds: the object behind a trivial subrange, the offset in it, and whether
      that object has one buffer with all its bytes. */
  datatype Direct = Direct(obj: Ref, from: nat, mapped: bool)

  function MapDirect(objs: seq<Obj>, dd: Ref, offset: nat): Direct
    requires dd < |objs| && (|objs[dd].records| == 1 ==> objs[dd].records[0].obj < |objs|)
  {
    var (obj, from) := if |objs[dd].records| == 1 then (objs[dd].records[0].obj, offset + objs[dd].records[0].from)
                       else (dd, offset);
    Direct(obj, from, objs[obj].buf.Some?)
  }

  lemma MapDirectOk(objs: seq<Obj>, dd: Ref)
    requires WellFormed(objs) && dd < |objs|
    ensures |objs[dd].records| == 1 ==>
      RecordOk(objs, objs[dd].records[0]) && Bytes(objs, dd) == Slice(objs, objs[dd].records[0])
    ensures Leaf(objs[dd]) ==> LeafOk(objs[dd]) && Bytes(objs, dd) == objs[dd].buf.value
    ensures objs[dd].buf.Some? ==> Bytes(objs, dd) == objs[dd].buf.value
  {
    assert ObjOk(objs, objs[dd]);
    if |objs[dd].records| == 1 {
      assert RecordOk(objs, objs[dd].records[0]);
      assert Parts(objs, objs[dd].records) == [Slice(objs, objs[dd].records[0])];
      JoinOne(Slice(objs, objs[dd].records[0]));
    }
  }

  /** A mapped object is read at the right place: the buffer found holds the bytes asked for. */
  lemma MapDirectReads(objs: seq<Obj>, dd: Ref, offset: nat, n: nat)
    requires WellFormed(objs) && dd < |objs| && offset + n <= objs[dd].size
    ensures |objs[dd].records| == 1 ==> objs[dd].records[0].obj < |objs|
    ensures var d := MapDirect(objs, dd, offset);
            if d.mapped
            then && d.obj < |objs| && d.from + n <= |objs[d.obj].buf.value|
                 && Part(objs[d.obj].buf.value, d.from, n) == Part(Bytes(objs, dd), offset, n)
            else d.obj == dd && d.from == offset && |objs[dd].records| > 1
  {
    MapDirectOk(objs, dd);
    if |objs[dd].records| == 1 {
      TrivialReads(objs, objs[dd].records[0], offset, n);
    }
  }

  lemma TrivialReads(objs: seq<Obj>, rec: Record, offset: nat, n: nat)
    requires RecordOk(objs, rec) && offset + n <= rec.length
    ensures rec.from + offset + n <= |objs[rec.obj].buf.value|
    ensures Part(objs[rec.obj].buf.value, offset + rec.from, n) == Part(Slice(objs, rec), offset, n)
  {
    PartOfPart(objs[rec.obj].buf.value, rec.from, rec.length, offset, n);
  }

  /** One call of an applier: the object it gets, the logical offset, and the bytes it may read. */
  datatype Region = Region(obj: Ref, offset: nat, bytes: seq<Byte>)

  /** The calls that a full traversal of the part `from..from + size` of `dd` makes. */
  ghost function Calls(objs: seq<Obj>, dd: Ref, offset: nat, from: nat, size: nat): seq<Region>
    requires WellFormed(objs) && dd < |objs| && from + size <= objs[dd].size
  {
    MapDirectOk(objs, dd);
    if MapDirect(objs, dd, 0).mapped then [Region(dd, offset, Part(Bytes(objs, dd), from, size))]
    else CallsOf(objs, objs[dd].records, offset)
  }

  ghost function CallsOf(objs: seq<Obj>, recs: seq<Record>, offset: nat): (calls: seq<Region>)
    ensures |calls| == |recs|
  {
    var parts := Parts(objs, recs);
    seq(|recs|, k requires 0 <= k < |recs| => Region(recs[k].obj, offset + At(parts, k), parts[k]))
  }

  /** The regions of a data object. */
  ghost function Regions(objs: seq<Obj>, dd: Ref): seq<Region>
    requires WellFormed(objs) && dd < |objs|
  {
    if objs[dd].size == 0 then [] else Calls(objs, dd, 0, 0, objs[dd].size)
  }

  /** Region `k` is nonempty, has the bytes of `b` at its offset, starts where the one before it ends, and the last
      one ends where `b` ends. */
  ghost predicate Covers(regions: seq<Region>, b: seq<Byte>, k: nat)
    requires k < |regions|
  {
    var r := regions[k];
    && 0 < |r.bytes| && r.offset + |r.bytes| <= |b|
    && Part(b, r.offset, |r.bytes|) == r.bytes
    && (k == 0 ==> r.offset == 0)
    && (k + 1 < |regions| ==> regions[k + 1].offset == r.offset + |r.bytes|)
    && (k + 1 == |regions| ==> r.offset + |r.bytes| == |b|)
  }

  /** Regions are contiguous, in order, nonempty, and cover the bytes of the object exactly. */
  lemma RegionsCover(objs: seq<Obj>, dd: Ref)
    requires WellFormed(objs) && dd < |objs|
    ensures Regions(objs, dd) == [] <==> Bytes(objs, dd) == []
    ensures forall k :: 0 <= k < |Regions(objs, dd)| ==> Covers(Regions(objs, dd), Bytes(objs, dd), k)
  {
    MapDirectOk(objs, dd);
    assert ObjOk(objs, objs[dd]);
    if !MapDirect(objs, dd, 0).mapped {
      forall k | 0 <= k < |objs[dd].records|
        ensures Covers(CallsOf(objs, objs[dd].records, 0), Gather(objs, objs[dd].records), k)
      {
        CallsCover(objs, objs[dd].records, k);
      }
    }
  }

  lemma CallsCover(objs: seq<Obj>, recs: seq<Record>, k: nat)
    requires RecordsOk(objs, recs) && k < |recs|
    ensures Covers(CallsOf(objs, recs, 0), Gather(objs, recs), k)
  {
    assert RecordOk(objs, recs[k]);
    PartsCover(Parts(objs, recs), CallsOf(objs, recs, 0), k);
  }

  lemma PartsCover(parts: seq<seq<Byte>>, calls: seq<Region>, k: nat)
    requires |calls| == |parts| && k < |parts| && 0 < |parts[k]|
    requires forall i :: 0 <= i < |parts| ==> calls[i].offset == At(parts, i) && calls[i].bytes == parts[i]
    ensures Covers(calls, Join(parts, 0, |parts|), k)
  {
    PartAt(parts, k);
  }

  /** An applier is given each region's memory, but the object it is given represents that memory exactly when the
      record spans its leaf; otherwise it is a larger object. */
  lemma RegionObject(objs: seq<Obj>, dd: Ref, k: nat)
    requires WellFormed(objs) && dd < |objs| && 0 < objs[dd].size && k < |Regions(objs, dd)|
    ensures var region := Regions(objs, dd)[k];
            && region.obj < |objs|
            && (|objs[dd].records| > 1 && objs[dd].buf.None? ==>
                  var rec := objs[dd].records[k];
                  Bytes(objs, region.obj) == region.bytes <==> rec.from == 0 && rec.length == objs[rec.obj].size)
            && (|objs[dd].records| <= 1 || objs[dd].buf.Some? ==> Bytes(objs, region.obj) == region.bytes)
  {
    MapDirectOk(objs, dd);
    assert ObjOk(objs, objs[dd]);
    if !MapDirect(objs, dd, 0).mapped {
      var rec := objs[dd].records[k];
      assert RecordOk(objs, rec);
      assert ObjOk(objs, objs[rec.obj]);
      assert |Slice(objs, rec)| == rec.length;
    }
  }

  /** The applier decides from the calls so far, so it may keep state. */
  type Applier = seq<Region> -> bool

  /** The applier said to go on after every call past the first `sofar`, except perhaps the last. */
  ghost predicate WentOn(applier: Applier, sofar: nat, log: seq<Region>) {
    forall n :: sofar < n < |log| ==> applier(log[..n])
  }

  /** `log` is what a traversal that should make `calls` after `sofar` has done when it ends with `result`. */
  ghost predicate Played(applier: Applier, sofar: seq<Region>, calls: seq<Region>, log: seq<Region>, result: bool) {
    && |sofar| < |log| <= |sofar| + |calls| && log == (sofar + calls)[..|log|]
    && WentOn(applier, |sofar|, log)
    && result == applier(log)
    && (result ==> log == sofar + calls)
  }

  /** _dispatch_data_apply on an object with a buffer, and its recursion otherwise. */
  method ApplyFrom(objs: seq<Obj>, dd: Ref, offset: nat, from: nat, size: nat, applier: Applier, sofar: seq<Region>)
      returns (result: bool, log: seq<Region>)
    requires WellFormed(objs) && dd < |objs| && 0 < size && from + size <= objs[dd].size
    requires Leaf(objs[dd]) || (from == 0 && size == objs[dd].size)
    ensures Leaf(objs[dd]) ==> log == sofar + [Region(dd, offset, Part(Bytes(objs, dd), from, size))]
    ensures Leaf(objs[dd]) ==> result == applier(log)
    ensures Played(applier, sofar, Calls(objs, dd, offset, from, size), log, result)
    decreases if Leaf(objs[dd]) then 0 else 1, 1
  {
    MapDirectReads(objs, dd, from, size);
    MapDirectOk(objs, dd);
    var d := MapDirect(objs, dd, 0);
    if d.mapped {
      log := sofar + [Region(dd, offset, Part(objs[d.obj].buf.value, d.from + from, size))];
      result := applier(log);
      assert sofar + Calls(objs, dd, offset, from, size) == log;
    } else {
      assert ObjOk(objs, objs[dd]);
      result, log := ApplyRecords(objs, objs[dd].records, offset, applier, sofar);
    }
  }

  /** The loop of _dispatch_data_apply over the records of an object. */
  method ApplyRecords(objs: seq<Obj>, recs: seq<Record>, offset: nat, applier: Applier, sofar: seq<Region>)
      returns (result: bool, log: seq<Region>)
    requires WellFormed(objs) && RecordsOk(objs, recs) && recs != []
    ensures Played(applier, sofar, CallsOf(objs, recs, offset), log, result)
    decreases 1, 0
  {
    ghost var calls, parts := CallsOf(objs, recs, offset), Parts(objs, recs);
    result, log := true, sofar;
    var i, off := 0, offset;
    while i < |recs| && result
      invariant i <= |recs| && off == offset + At(parts, i)
      invariant log == sofar + calls[..i]
      invariant if i > 0 then result == applier(log) else result
      invariant WentOn(applier, |sofar|, log)
    {
      ghost var before := log;
      assert RecordOk(objs, recs[i]);
      result, log := ApplyFrom(objs, recs[i].obj, off, recs[i].from, recs[i].length, applier, log);
      assert log == before + [calls[i]];
      OneMore(applier, sofar, calls, i, before, log);
      off := off + recs[i].length;
      i := i + 1;
    }
    assert log == (sofar + calls)[..|log|];
  }

  lemma OneMore(applier: Applier, sofar: seq<Region>, calls: seq<Region>, i: nat, before: seq<Region>, log: seq<Region>)
    requires i < |calls| && before == sofar + calls[..i] && log == before + [calls[i]]
    requires i > 0 ==> applier(before)
    requires WentOn(applier, |sofar|, before)
    ensures log == sofar + calls[..i + 1]
    ensures WentOn(applier, |sofar|, log)
  {
    forall n | |sofar| < n < |log| ensures applier(log[..n]) {
      assert n < |before| ==> log[..n] == before[..n];
      assert n == |before| ==> log[..n] == before;
    }
  }

  /** dispatch_data_apply: calls the applier on the regions in order until it says stop, and tells whether it did not. */
  method Apply(objs: seq<Obj>, dd: Ref, applier: Applier) returns (result: bool, log: seq<Region>)
    requires WellFormed(objs) && dd < |objs|
    ensures log <= Regions(objs, dd)
    ensures WentOn(applier, 0, log)
    ensures result ==> log == Regions(objs, dd)
    ensures if log == [] then result && objs[dd].size == 0 else result == applier(log)
  {
    if objs[dd].size == 0 {
      return true, [];
    }
    result, log := ApplyFrom(objs, dd, 0, 0, objs[dd].size, applier, []);
    assert [] + Regions(objs, dd) == Regions(objs, dd);
  }

  /** _dispatch_data_flatten: a buffer filled region by region holds the bytes of the object. */
  method Flatten(objs: seq<Obj>, dd: Ref) returns (flat: seq<Byte>)
    requires WellFormed(objs) && dd < |objs|
    ensures flat == Bytes(objs, dd)
  {
    var _, regions := Apply(objs, dd, (log: seq<Region>) => true);
    RegionsCover(objs, dd);
    flat := CopyOut(regions, objs[dd].size, Bytes(objs, dd));
  }

  /** The block that _dispatch_data_flatten applies, over all regions. */
  method CopyOut(regions: seq<Region>, size: nat, ghost all: seq<Byte>) returns (flat: seq<Byte>)
    requires |all| == size && (regions == [] <==> all == [])
    requires forall k :: 0 <= k < |regions| ==> Covers(regions, all, k)
    ensures flat == all
  {
    var buffer := new Byte[size];
    ghost var done := 0;
    assert regions != [] ==> Covers(regions, all, 0);
    for i := 0 to |regions|
      invariant done <= |all| && buffer[..done] == all[..done]
      invariant if i < |regions| then done == regions[i].offset else done == |all|
    {
      assert Covers(regions, all, i);
      var off, bytes := regions[i].offset, regions[i].bytes;
      forall k | 0 <= k < |bytes| {
        buffer[off + k] := bytes[k];
      }
      assert buffer[off..off + |bytes|] == bytes;
      assert buffer[..off] == all[..off];
      done := off + |bytes|;
      assert all[..done] == all[..off] + bytes;
      assert buffer[..done] == buffer[..off] + buffer[off..done];
    }
    flat := buffer[..];
  }
}
