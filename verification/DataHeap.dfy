/** The heap of data objects: creation, reference counting and disposal. */
module DataHeap {
  import opened Runs
  import opened Data
  import opened DataRegions

  ghost predicate Sound(objs: seq<Obj>, refs: seq<nat>, freed: set<Ref>, held: multiset<Ref>, destroyed: seq<nat>,
                        owed: multiset<Ref>)
  {
    && WellFormed(objs)
    && (forall r :: r in held ==> r < |objs|)
    && Counted(objs, refs, freed, held, owed)
    && Disposed(objs, refs, freed, destroyed)
  }

  /** What a client holds is live. */
  lemma HeldIsLive(objs: seq<Obj>, refs: seq<nat>, freed: set<Ref>, held: multiset<Ref>, destroyed: seq<nat>, dd: Ref)
    requires Sound(objs, refs, freed, held, destroyed, multiset{}) && dd in held
    ensures dd < |objs| && dd !in freed
  {
    if dd > 0 {
      assert refs[dd] == held[dd] + Pointers(objs, freed)[dd];
    }
  }

  predicate TargetsLive(freed: set<Ref>, recs: seq<Record>) {
    forall k :: 0 <= k < |recs| ==> recs[k].obj !in freed
  }

  /** Nothing refers to a number that is not in use yet. */
  lemma Unused(objs: seq<Obj>, freed: set<Ref>, recs: seq<Record>)
    requires WellFormed(objs) && RecordsOk(objs, recs)
    ensures |objs| !in Pointers(objs, freed) && |objs| !in Rest(recs, 0)
  {
    if |objs| in Pointers(objs, freed) {
      PointedIsLeaf(objs, freed, |objs|);
    }
    if |objs| in Rest(recs, 0) {
      var k := RestWitness(recs, 0, |objs|);
    }
  }

  lemma TargetsNotFreed(freed: set<Ref>, recs: seq<Record>, r: Ref)
    requires TargetsLive(freed, recs) && r in freed
    ensures Rest(recs, 0)[r] == 0
  {
    if r in Rest(recs, 0) {
      var k := RestWitness(recs, 0, r);
    }
  }

  /** A new object with one client reference, whose leaves have been retained, keeps the heap sound. */
  lemma Added(objs: seq<Obj>, refs: seq<nat>, freed: set<Ref>, held: multiset<Ref>, destroyed: seq<nat>, o: Obj, retained: seq<nat>)
    requires Sound(objs, refs, freed, held, destroyed, multiset{}) && ObjOk(objs, o) && TargetsLive(freed, o.records)
    requires |retained| == |refs| && forall r :: 0 < r < |refs| ==> retained[r] == refs[r] + Rest(o.records, 0)[r]
    ensures Sound(objs + [o], retained + [1], freed, held + multiset{|objs|}, destroyed + [0], multiset{})
  {
    Extended(objs, o);
    AddedCounts(objs, refs, freed, held, destroyed, o, retained);
    AddedDisposed(objs, refs, freed, destroyed, o, retained);
  }

  lemma AddedDisposed(objs: seq<Obj>, refs: seq<nat>, freed: set<Ref>, destroyed: seq<nat>, o: Obj, retained: seq<nat>)
    requires 0 < |objs| && Disposed(objs, refs, freed, destroyed) && TargetsLive(freed, o.records)
    requires |retained| == |refs| && forall r :: 0 < r < |refs| ==> retained[r] == refs[r] + Rest(o.records, 0)[r]
    ensures Disposed(objs + [o], retained + [1], freed, destroyed + [0])
  {
    forall r | 0 < r < |objs| ensures r in freed <==> retained[r] == 0 {
      if r in freed {
        TargetsNotFreed(freed, o.records, r);
      }
    }
  }

  lemma AddedCounts(objs: seq<Obj>, refs: seq<nat>, freed: set<Ref>, held: multiset<Ref>, destroyed: seq<nat>, o: Obj, retained: seq<nat>)
    requires Sound(objs, refs, freed, held, destroyed, multiset{}) && ObjOk(objs, o) && TargetsLive(freed, o.records)
    requires |retained| == |refs| && forall r :: 0 < r < |refs| ==> retained[r] == refs[r] + Rest(o.records, 0)[r]
    ensures Counted(objs + [o], retained + [1], freed, held + multiset{|objs|}, multiset{})
  {
    PointersExtended(objs, o, freed);
    Unused(objs, freed, o.records);
    var pointers, now := Pointers(objs, freed), Pointers(objs + [o], freed);
    forall r | 0 < r < |objs| + 1
      ensures (retained + [1])[r] == (held + multiset{|objs|})[r] + now[r] + multiset{}[r]
    {
      assert now[r] == pointers[r] + Rest(o.records, 0)[r];
      assert r < |objs| ==> refs[r] == held[r] + pointers[r];
    }
  }

  lemma AddedBytes(objs: seq<Obj>, o: Obj)
    requires WellFormed(objs) && ObjOk(objs, o)
    ensures WellFormed(objs + [o]) && Grew(objs, objs + [o])
    ensures Bytes(objs + [o], |objs|) == if Leaf(o) then o.buf.value else Gather(objs, o.records)
  {
    Extended(objs, o);
    if !Leaf(o) {
      PartsKept(objs, objs + [o], o.records);
    }
  }

  /** One more client reference to a live object. */
  lemma Retained(objs: seq<Obj>, refs: seq<nat>, freed: set<Ref>, held: multiset<Ref>, destroyed: seq<nat>, dd: Ref)
    requires Sound(objs, refs, freed, held, destroyed, multiset{}) && dd < |objs| && dd !in freed
    ensures Sound(objs, if dd == 0 then refs else refs[dd := refs[dd] + 1], freed, held + multiset{dd}, destroyed, multiset{})
  {
    var now := if dd == 0 then refs else refs[dd := refs[dd] + 1];
    forall r | 0 < r < |objs|
      ensures now[r] == (held + multiset{dd})[r] + Pointers(objs, freed)[r] + multiset{}[r]
    {
      assert refs[r] == held[r] + Pointers(objs, freed)[r] + multiset{}[r];
    }
  }

  /** An object seen as a list of records. */
  lemma AsRecordsOk(objs: seq<Obj>, refs: seq<nat>, freed: set<Ref>, held: multiset<Ref>, destroyed: seq<nat>, dd: Ref)
    requires Sound(objs, refs, freed, held, destroyed, multiset{}) && dd < |objs| && dd !in freed && 0 < objs[dd].size
    ensures RecordsOk(objs, AsRecords(objs, dd)) && TargetsLive(freed, AsRecords(objs, dd)) && AsRecords(objs, dd) != []
    ensures Gather(objs, AsRecords(objs, dd)) == Bytes(objs, dd)
  {
    assert ObjOk(objs, objs[dd]);
    if Leaf(objs[dd]) {
      WholePart(objs[dd].buf.value);
      assert Parts(objs, AsRecords(objs, dd)) == [objs[dd].buf.value];
      JoinOne(objs[dd].buf.value);
    } else {
      forall k | 0 <= k < |objs[dd].records| ensures objs[dd].records[k].obj !in freed {
        RecordsLive(objs, refs, freed, held, destroyed, dd, k);
      }
    }
  }

  lemma GatherConcat(objs: seq<Obj>, a: seq<Record>, b: seq<Record>)
    ensures Gather(objs, a + b) == Gather(objs, a) + Gather(objs, b)
  {
    JoinConcat(Parts(objs, a), Parts(objs, b), Parts(objs, a + b), |a|, |b|);
  }

  lemma ConcatOk(objs: seq<Obj>, refs: seq<nat>, freed: set<Ref>, held: multiset<Ref>, destroyed: seq<nat>, dd1: Ref, dd2: Ref)
    requires Sound(objs, refs, freed, held, destroyed, multiset{}) && dd1 < |objs| && dd1 !in freed && 0 < objs[dd1].size
    requires dd2 < |objs| && dd2 !in freed && 0 < objs[dd2].size
    ensures var recs := AsRecords(objs, dd1) + AsRecords(objs, dd2);
            && ObjOk(objs, Obj(None, objs[dd1].size + objs[dd2].size, recs)) && TargetsLive(freed, recs) && recs != []
            && Gather(objs, recs) == Bytes(objs, dd1) + Bytes(objs, dd2)
  {
    AsRecordsOk(objs, refs, freed, held, destroyed, dd1);
    AsRecordsOk(objs, refs, freed, held, destroyed, dd2);
    GatherConcat(objs, AsRecords(objs, dd1), AsRecords(objs, dd2));
  }

  function Clamped(b: seq<Byte>, offset: nat, length: nat): seq<Byte> {
    if offset >= |b| then [] else if length > |b| - offset then b[offset..] else b[offset..offset + length]
  }

  lemma ClampedIsPart(b: seq<Byte>, offset: nat, length: nat, n: nat)
    requires offset < |b| && 0 < n && n == if length > |b| - offset then |b| - offset else length
    ensures Clamped(b, offset, length) == Part(b, offset, n)
  {
  }

  /** A trivial subrange of a leaf. */
  lemma OneRecord(objs: seq<Obj>, freed: set<Ref>, dd: Ref, from: nat, length: nat)
    requires WellFormed(objs) && dd < |objs| && dd !in freed && Leaf(objs[dd]) && 0 < length && from + length <= objs[dd].size
    ensures ObjOk(objs, Obj(None, length, [Record(dd, from, length)])) && TargetsLive(freed, [Record(dd, from, length)])
    ensures Gather(objs, [Record(dd, from, length)]) == Part(Bytes(objs, dd), from, length)
  {
    assert ObjOk(objs, objs[dd]);
    assert Parts(objs, [Record(dd, from, length)]) == [Part(objs[dd].buf.value, from, length)];
    JoinOne(Part(objs[dd].buf.value, from, length));
  }

  /** `want` is the part of the leaf of `rec` that starts `rest` bytes into the record. */
  ghost predicate InLeaf(objs: seq<Obj>, rec: Record, rest: nat, length: nat, want: seq<Byte>)
    requires WellFormed(objs)
  {
    && rec.obj < |objs| && Leaf(objs[rec.obj]) && rec.from + rest + length <= objs[rec.obj].size
    && Part(Bytes(objs, rec.obj), rec.from + rest, length) == want
  }

  /** `recs` is a list of records of live leaves that stands for `want`. */
  ghost predicate Lists(objs: seq<Obj>, freed: set<Ref>, recs: seq<Record>, want: seq<Byte>) {
    RecordsOk(objs, recs) && TargetsLive(freed, recs) && Gather(objs, recs) == want
  }

  /** A range inside one record is a range of its leaf. */
  lemma RangeInRecord(objs: seq<Obj>, recs: seq<Record>, parts: seq<seq<Byte>>, i: nat, rest: nat, length: nat)
    requires WellFormed(objs) && i < |recs| && RecordOk(objs, recs[i]) && rest + length <= recs[i].length
    requires |parts| == |recs| && parts[i] == Slice(objs, recs[i])
    ensures InLeaf(objs, recs[i], rest, length, Part(Join(parts, 0, |parts|), At(parts, i) + rest, length))
  {
    PartInside(parts, i, rest, length);
    PartOfPart(objs[recs[i].obj].buf.value, recs[i].from, recs[i].length, rest, length);
  }

  /** A range that goes to the end ends with the last record. */
  lemma EndsTogether(recs: seq<Record>, parts: seq<seq<Byte>>, i: nat, rest: nat, length: nat)
    requires Sized(recs, parts) && i < |recs| && rest < recs[i].length < rest + length
    requires At(parts, i) + rest + length == At(parts, |parts|)
    ensures i + 1 < |recs| && At(parts, |recs| - 1) + recs[|recs| - 1].length == At(parts, i) + rest + length
  {
    assert At(parts, i + 1) == At(parts, i) + |parts[i]|;
  }

  lemma TrimmedLive(freed: set<Ref>, recs: seq<Record>, i: nat, count: nat, offset: nat, last: nat)
    requires TargetsLive(freed, recs) && 1 < count && i + count <= |recs| && offset < recs[i].length
    ensures TargetsLive(freed, Trimmed(recs, i, count, offset, last))
  {
    var cut := Trimmed(recs, i, count, offset, last);
    forall k | 0 <= k < |cut| ensures cut[k].obj !in freed {
      assert cut[k].obj == recs[i + k].obj;
    }
  }

  /** Copies the records of a range and trims the first and the last one. */
  method Trim(ghost objs: seq<Obj>, ghost freed: set<Ref>, recs: seq<Record>, i: nat, count: nat, rest: nat, last: nat)
      returns (cut: seq<Record>)
    requires RecordsOk(objs, recs) && TargetsLive(freed, recs) && 1 < count && i + count <= |recs|
    requires rest < recs[i].length && 0 < last <= recs[i + count - 1].length
    ensures |cut| == count && RecordsOk(objs, cut) && TargetsLive(freed, cut)
    ensures CutOf(Parts(objs, recs), Parts(objs, cut), i, count - 1, rest, last)
  {
    assert RecordOk(objs, recs[i]) && RecordOk(objs, recs[i + count - 1]);
    TrimmedOk(objs, recs, i, count, rest, last);
    TrimmedLive(freed, recs, i, count, rest, last);
    TrimmedCut(objs, recs, i, count, rest, last);
    cut := Trimmed(recs, i, count, rest, last);
  }

  /** The records from `i` on that a range of `length` bytes needs, and how much of the last one. */
  method Extent(recs: seq<Record>, ghost parts: seq<seq<Byte>>, i: nat, rest: nat, length: nat, toTheEnd: bool)
      returns (count: nat, last: nat)
    requires Sized(recs, parts) && i < |recs| && rest < recs[i].length < rest + length
    requires forall k :: 0 <= k < |recs| ==> 0 < recs[k].length
    requires At(parts, i) + rest + length <= At(parts, |parts|)
    requires toTheEnd <==> At(parts, i) + rest + length == At(parts, |parts|)
    ensures 1 < count <= |recs| - i && 0 < last <= recs[i + count - 1].length
    ensures At(parts, i + count - 1) + last == At(parts, i) + rest + length
  {
    if toTheEnd {
      count, last := |recs| - i, recs[|recs| - 1].length;
      EndsTogether(recs, parts, i, rest, length);
    } else {
      count, last := FindLast(recs, parts, i, rest, length);
    }
  }

  /** Where a range lies: from `rest` in record `i` on, over `count` records, the last of which gives `last` bytes. */
  ghost predicate Located(recs: seq<Record>, parts: seq<seq<Byte>>, offset: nat, length: nat, i: nat, rest: nat, count: nat, last: nat)
    requires |parts| == |recs|
  {
    && 0 < count && i + count <= |recs| && rest < recs[i].length && At(parts, i) + rest == offset
    && (count == 1 ==> rest + length <= recs[i].length)
    && (count > 1 ==> 0 < last <= recs[i + count - 1].length && At(parts, i + count - 1) + last == offset + length)
  }

  method Locate(recs: seq<Record>, ghost parts: seq<seq<Byte>>, size: nat, offset: nat, length: nat)
      returns (i: nat, rest: nat, count: nat, last: nat)
    requires Sized(recs, parts) && At(parts, |parts|) == size && 0 < length && offset + length <= size
    requires forall k :: 0 <= k < |recs| ==> 0 < recs[k].length
    ensures Located(recs, parts, offset, length, i, rest, count, last)
  {
    i, rest := FindFirst(recs, parts, offset);
    if rest + length <= recs[i].length {
      count, last := 1, 0;
    } else {
      count, last := Extent(recs, parts, i, rest, length, offset + length == size);
    }
  }

  /** The part of dispatch_data_create_subrange for composites. Either the range lies in record `i`, at `rest`, and
      `cut` is empty, or `cut` lists the records of the range. */
  method Narrow(ghost objs: seq<Obj>, ghost freed: set<Ref>, recs: seq<Record>, size: nat, offset: nat, length: nat)
      returns (i: nat, rest: nat, cut: seq<Record>)
    requires WellFormed(objs) && RecordsOk(objs, recs) && TargetsLive(freed, recs) && |Gather(objs, recs)| == size
    requires 0 < length && offset + length <= size
    ensures i < |recs|
    ensures if cut == [] then InLeaf(objs, recs[i], rest, length, Part(Gather(objs, recs), offset, length))
            else Lists(objs, freed, cut, Part(Gather(objs, recs), offset, length))
  {
    PartsSized(objs, recs);
    Lengths(objs, recs);
    var count, last;
    i, rest, count, last := Locate(recs, Parts(objs, recs), size, offset, length);
    if count == 1 {
      InRecord(objs, recs, offset, length, i, rest);
      cut := [];
    } else {
      cut := Trim(objs, freed, recs, i, count, rest, last);
      Narrowed(recs, |recs|, Parts(objs, recs), Parts(objs, cut), offset, length, i, rest, count - 1, last);
    }
  }

  lemma Narrowed(recs: seq<Record>, total: nat, parts: seq<seq<Byte>>, cut: seq<seq<Byte>>, offset: nat, length: nat,
                 i: nat, rest: nat, n: nat, last: nat)
    requires |parts| == |recs| == total && n > 0 && Located(recs, parts, offset, length, i, rest, n + 1, last)
    requires CutOf(parts, cut, i, n, rest, last)
    ensures Join(cut, 0, n + 1) == Part(Join(parts, 0, total), offset, length)
  {
    assert At(parts, i) + rest + length == At(parts, i + n) + last;
    CutIsPart(parts, total, cut, i, n, rest, last, length);
  }

  lemma InRecord(objs: seq<Obj>, recs: seq<Record>, offset: nat, length: nat, i: nat, rest: nat)
    requires WellFormed(objs) && RecordsOk(objs, recs) && i < |recs| && rest + length <= recs[i].length
    requires At(Parts(objs, recs), i) + rest == offset
    ensures InLeaf(objs, recs[i], rest, length, Part(Gather(objs, recs), offset, length))
  {
    assert RecordOk(objs, recs[i]);
    RangeInRecord(objs, recs, Parts(objs, recs), i, rest, length);
  }

  lemma Lengths(objs: seq<Obj>, recs: seq<Record>)
    requires RecordsOk(objs, recs)
    ensures forall k :: 0 <= k < |recs| ==> 0 < recs[k].length
  {
    forall k | 0 <= k < |recs| ensures 0 < recs[k].length {
      assert RecordOk(objs, recs[k]);
    }
  }

  /** The loop of _dispatch_data_copy_region: the record whose region contains `location`, how far into the record the
      region starts, its length and its offset. The assertion is the crash that never happens. */
  method FindRegion(recs: seq<Record>, ghost parts: seq<seq<Byte>>, from: nat, ghost size: nat, location: nat)
      returns (i: nat, inner: nat, length: nat, offset: nat)
    requires Sized(recs, parts) && At(parts, |parts|) == from + size && location < size
    ensures i < |recs| && inner + length == recs[i].length && At(parts, i) + inner == from + offset
    ensures offset <= location < offset + length
    ensures from == 0 ==> inner == 0
  {
    i, inner, offset := 0, from, 0;
    while i < |recs|
      invariant i <= |recs| && At(parts, i) + inner == from + offset && offset <= location
      invariant from == 0 ==> inner == 0
    {
      length := recs[i].length;
      if inner >= length {
        inner := inner - length;
      } else {
        length := length - inner;
        if location < offset + length {
          return;
        }
        offset := offset + length;
        inner := 0;
      }
      i := i + 1;
    }
    assert false;
  }

  /** One of the regions that a traversal of `dd` passes. */
  ghost predicate IsRegion(objs: seq<Obj>, dd: Ref, offset: nat, bytes: seq<Byte>)
    requires WellFormed(objs) && dd < |objs|
  {
    exists k :: 0 <= k < |Regions(objs, dd)| && Regions(objs, dd)[k].offset == offset && Regions(objs, dd)[k].bytes == bytes
  }

  /** Seeing through a trivial subrange ends at a live leaf, at the right place. */
  lemma BehindTrivial(objs: seq<Obj>, refs: seq<nat>, freed: set<Ref>, held: multiset<Ref>, destroyed: seq<nat>, dd: Ref,
                      from: nat, size: nat)
    requires Sound(objs, refs, freed, held, destroyed, multiset{}) && dd < |objs| && dd !in freed
    requires 0 < size && from + size <= objs[dd].size && |objs[dd].records| <= 1
    ensures |objs[dd].records| == 1 ==> objs[dd].records[0].obj < |objs|
    ensures var d := MapDirect(objs, dd, from);
            && d.obj < |objs| && d.obj !in freed && Leaf(objs[d.obj]) && d.from + size <= objs[d.obj].size
            && Part(Bytes(objs, d.obj), d.from, size) == Part(Bytes(objs, dd), from, size)
  {
    MapDirectReads(objs, dd, from, size);
    MapDirectOk(objs, dd);
    assert ObjOk(objs, objs[dd]);
    if |objs[dd].records| == 1 {
      RecordsLive(objs, refs, freed, held, destroyed, dd, 0);
    }
  }

  lemma WholeRegion(objs: seq<Obj>, dd: Ref)
    requires WellFormed(objs) && dd < |objs| && 0 < objs[dd].size
    requires |objs[dd].records| == 1 ==> objs[dd].records[0].obj < |objs|
    requires MapDirect(objs, dd, 0).mapped
    ensures IsRegion(objs, dd, 0, Bytes(objs, dd))
    ensures Part(Bytes(objs, dd), 0, objs[dd].size) == Bytes(objs, dd)
    ensures |objs[dd].records| > 1 ==> objs[dd].buf.Some?
  {
    assert Regions(objs, dd)[0].offset == 0;
  }

  lemma RecordRegion(objs: seq<Obj>, dd: Ref, i: nat)
    requires WellFormed(objs) && dd < |objs| && 0 < objs[dd].size && |objs[dd].records| > 1 && objs[dd].buf.None?
    requires i < |objs[dd].records|
    ensures var rec := objs[dd].records[i];
            && rec.obj < |objs| && Leaf(objs[rec.obj]) && rec.from + rec.length <= objs[rec.obj].size && 0 < rec.length
            && IsRegion(objs, dd, At(Parts(objs, objs[dd].records), i), Part(Bytes(objs, rec.obj), rec.from, rec.length))
  {
    assert ObjOk(objs, objs[dd]) && RecordOk(objs, objs[dd].records[i]);
    assert Regions(objs, dd)[i] == CallsOf(objs, objs[dd].records, 0)[i];
  }

  lemma FlattenedSound(objs: seq<Obj>, refs: seq<nat>, freed: set<Ref>, held: multiset<Ref>, destroyed: seq<nat>, dd: Ref)
    requires Sound(objs, refs, freed, held, destroyed, multiset{}) && dd < |objs|
    requires |objs[dd].records| > 1 && objs[dd].buf.None?
    ensures var later := objs[dd := objs[dd].(buf := Some(Bytes(objs, dd)))];
            Sound(later, refs, freed, held, destroyed, multiset{}) && Grew(objs, later)
  {
    FlattenedIn(objs, dd);
    PointersFlattened(objs, objs[dd := objs[dd].(buf := Some(Bytes(objs, dd)))], freed);
  }

  lemma Composite(objs: seq<Obj>, dd: Ref)
    requires WellFormed(objs) && dd < |objs| && |objs[dd].records| > 1
    ensures objs[dd].size > 0
  {
    var recs := objs[dd].records;
    assert ObjOk(objs, objs[dd]) && RecordOk(objs, recs[0]);
    PartAt(Parts(objs, recs), 0);
  }

  lemma RecordTarget(objs: seq<Obj>, dd: Ref, i: nat)
    requires WellFormed(objs) && dd < |objs| && i < |objs[dd].records|
    ensures 0 < objs[dd].records[i].obj < |objs| && Leaf(objs[objs[dd].records[i].obj])
  {
    assert ObjOk(objs, objs[dd]) && RecordOk(objs, objs[dd].records[i]);
  }

  /** Giving up a reference that is not the last one. */
  lemma DropOne(objs: seq<Obj>, refs: seq<nat>, freed: set<Ref>, held: multiset<Ref>, destroyed: seq<nat>,
                owed: multiset<Ref>, dd: Ref)
    requires Sound(objs, refs, freed, held, destroyed, owed + multiset{dd}) && 0 < dd < |objs| && refs[dd] > 1
    ensures Sound(objs, refs[dd := refs[dd] - 1], freed, held, destroyed, owed)
  {
    DropCounts(objs, refs, freed, held, owed, dd);
    DropDisposed(objs, refs, freed, destroyed, dd);
  }

  /** Giving up the last reference: the references of the records become owed, and a leaf's buffer is destroyed. */
  lemma DropLast(objs: seq<Obj>, refs: seq<nat>, freed: set<Ref>, held: multiset<Ref>, destroyed: seq<nat>,
                 owed: multiset<Ref>, dd: Ref)
    requires Sound(objs, refs, freed, held, destroyed, owed + multiset{dd}) && 0 < dd < |objs| && refs[dd] == 1
    ensures Sound(objs, refs[dd := 0], freed + {dd}, held,
                  if Leaf(objs[dd]) then destroyed[dd := destroyed[dd] + 1] else destroyed,
                  owed + Rest(objs[dd].records, 0))
  {
    DropCounts(objs, refs, freed, held, owed, dd);
    assert dd !in freed;
    FreeCounts(objs, refs[dd := 0], freed, held, owed, dd);
    FreeDisposed(objs, refs, freed, destroyed, dd);
  }

  lemma DropDisposed(objs: seq<Obj>, refs: seq<nat>, freed: set<Ref>, destroyed: seq<nat>, dd: Ref)
    requires Disposed(objs, refs, freed, destroyed) && 0 < dd < |objs| && refs[dd] > 1
    ensures Disposed(objs, refs[dd := refs[dd] - 1], freed, destroyed)
  {
    var left := refs[dd := refs[dd] - 1];
    assert forall r :: 0 < r < |objs| ==> (left[r] == 0 <==> refs[r] == 0);
  }

  lemma FreeDisposed(objs: seq<Obj>, refs: seq<nat>, freed: set<Ref>, destroyed: seq<nat>, dd: Ref)
    requires Disposed(objs, refs, freed, destroyed) && 0 < dd < |objs| && refs[dd] == 1
    ensures Disposed(objs, refs[dd := 0], freed + {dd}, if Leaf(objs[dd]) then destroyed[dd := destroyed[dd] + 1] else destroyed)
  {
    var left, now := refs[dd := 0], if Leaf(objs[dd]) then destroyed[dd := destroyed[dd] + 1] else destroyed;
    forall r | 0 < r < |objs| ensures r in freed + {dd} <==> left[r] == 0 {
      assert r in freed <==> refs[r] == 0;
    }
    forall r | 0 <= r < |objs| ensures now[r] == if r in freed + {dd} && Leaf(objs[r]) then 1 else 0 {
      assert destroyed[r] == if r in freed && Leaf(objs[r]) then 1 else 0;
      assert refs[dd] != 0;
    }
  }

  lemma HasReference(objs: seq<Obj>, refs: seq<nat>, freed: set<Ref>, held: multiset<Ref>, owed: multiset<Ref>, dd: Ref)
    requires Counted(objs, refs, freed, held, owed + multiset{dd}) && 0 < dd < |objs|
    ensures refs[dd] > 0
  {
  }

  lemma DropCounts(objs: seq<Obj>, refs: seq<nat>, freed: set<Ref>, held: multiset<Ref>, owed: multiset<Ref>, dd: Ref)
    requires Counted(objs, refs, freed, held, owed + multiset{dd}) && 0 < dd < |objs| && refs[dd] > 0
    ensures Counted(objs, refs[dd := refs[dd] - 1], freed, held, owed)
  {
    var left := refs[dd := refs[dd] - 1];
    forall r | 0 < r < |objs| ensures left[r] == held[r] + Pointers(objs, freed)[r] + owed[r] {
      assert refs[r] == held[r] + Pointers(objs, freed)[r] + (owed + multiset{dd})[r];
    }
  }

  lemma FreeCounts(objs: seq<Obj>, refs: seq<nat>, freed: set<Ref>, held: multiset<Ref>, owed: multiset<Ref>, dd: Ref)
    requires Counted(objs, refs, freed, held, owed) && dd < |objs| && dd !in freed
    ensures Counted(objs, refs, freed + {dd}, held, owed + Rest(objs[dd].records, 0))
  {
    var more := owed + Rest(objs[dd].records, 0);
    forall r | 0 < r < |objs| ensures refs[r] == held[r] + Pointers(objs, freed + {dd})[r] + more[r] {
      PointersFreed(objs, freed, dd, r);
      assert refs[r] == held[r] + Pointers(objs, freed)[r] + owed[r];
    }
  }

  /** The object has no bytes of its own. */
  predicate Refers(o: Obj) { !Leaf(o) && o.buf.None? }

  /** The object refers to a part of one other, and not to the whole of it. */
  predicate Window(objs: seq<Obj>, o: Obj) {
    && Refers(o) && |o.records| == 1 && o.records[0].obj < |objs|
    && o.records[0].length < objs[o.records[0].obj].size
  }

  class Heap {
    var objs: seq<Obj>
    var refs: seq<nat>
    /** The objects that have been disposed of. */
    var freed: set<Ref>
    /** How often the buffer of each object was handed to its destructor. */
    var destroyed: seq<nat>
    /** The references that clients own. */
    ghost var held: multiset<Ref>

    ghost predicate Valid() reads this { Sound(objs, refs, freed, held, destroyed, multiset{}) }

    predicate Live(r: Ref) reads this { r < |objs| && r !in freed }

    constructor ()
      ensures Valid() && objs == [EMPTY] && held == multiset{}
    {
      objs, refs, freed, destroyed, held := [EMPTY], [1], {}, [0], multiset{};
    }

    /** A client takes one more reference. The empty object is not counted. */
    method Retain(dd: Ref)
      requires Valid() && Live(dd)
      modifies this
      ensures Valid() && held == old(held) + multiset{dd}
      ensures objs == old(objs) && freed == old(freed)
    {
      Retained(objs, refs, freed, held, destroyed, dd);
      if dd != 0 {
        refs := refs[dd := refs[dd] + 1];
      }
      held := held + multiset{dd};
    }

    /** The loop that retains the objects of a new list of records. */
    method RetainAll(recs: seq<Record>)
      requires |refs| == |objs| && RecordsOk(objs, recs)
      modifies this`refs
      ensures |refs| == old(|refs|) && forall r :: 0 < r < |refs| ==> refs[r] == old(refs[r]) + Rest(recs, 0)[r]
    {
      ghost var before := refs;
      for i := 0 to |recs|
        invariant |refs| == |before|
        invariant forall r :: 0 < r < |refs| ==> refs[r] + Rest(recs, i)[r] == before[r] + Rest(recs, 0)[r]
      {
        assert RecordOk(objs, recs[i]);
        var r := recs[i].obj;
        refs := refs[r := refs[r] + 1];
      }
    }

    /** Allocates an object and retains what its records refer to. */
    method Add(o: Obj) returns (dd: Ref)
      requires Valid() && ObjOk(objs, o) && TargetsLive(freed, o.records)
      modifies this
      ensures Valid() && held == old(held) + multiset{dd}
      ensures dd == |old(objs)| && objs == old(objs) + [o] && freed == old(freed)
      ensures Grew(old(objs), objs) && Bytes(objs, dd) == if Leaf(o) then o.buf.value else Gather(old(objs), o.records)
    {
      ghost var before := refs;
      RetainAll(o.records);
      Added(objs, before, freed, held, destroyed, o, refs);
      AddedBytes(objs, o);
      dd := |objs|;
      objs, refs, destroyed, held := objs + [o], refs + [1], destroyed + [0], held + multiset{dd};
    }

    /** dispatch_data_create with a nonempty buffer makes a leaf; without one it returns the empty object. */
    method Create(buffer: seq<Byte>) returns (dd: Ref)
      requires Valid()
      modifies this
      ensures Valid() && held == old(held) + multiset{dd}
      ensures Grew(old(objs), objs) && freed == old(freed)
      ensures dd < |objs| && Bytes(objs, dd) == buffer
      ensures if buffer == [] then dd == 0 else dd == |old(objs)| && Leaf(objs[dd])
    {
      if buffer == [] {
        held := held + multiset{0};
        return 0;
      }
      dd := Add(Obj(Some(buffer), |buffer|, []));
    }

    /** dispatch_data_create_concat. */
    method Concat(dd1: Ref, dd2: Ref) returns (data: Ref)
      requires Valid() && Live(dd1) && Live(dd2)
      modifies this
      ensures Valid() && held == old(held) + multiset{data}
      ensures Grew(old(objs), objs) && freed == old(freed)
      ensures data < |objs| && Bytes(objs, data) == old(Bytes(objs, dd1)) + old(Bytes(objs, dd2))
      ensures old(objs[dd1].size > 0 && objs[dd2].size > 0) ==>
        objs[data].records == AsRecords(old(objs), dd1) + AsRecords(old(objs), dd2) && objs[data].buf.None?
      ensures old(objs[dd1].size == 0) ==> data == dd2
      ensures old(objs[dd1].size > 0 && objs[dd2].size == 0) ==> data == dd1
    {
      if objs[dd1].size == 0 {
        Retain(dd2);
        return dd2;
      }
      if objs[dd2].size == 0 {
        Retain(dd1);
        return dd1;
      }
      var recs := AsRecords(objs, dd1) + AsRecords(objs, dd2);
      ConcatOk(objs, refs, freed, held, destroyed, dd1, dd2);
      data := Add(Obj(None, objs[dd1].size + objs[dd2].size, recs));
    }

    /** dispatch_data_create_subrange: clamps the range. No bytes are copied: a new object only refers to others. */
    method Subrange(dd: Ref, offset: nat, length: nat) returns (data: Ref)
      requires Valid() && Live(dd)
      modifies this
      ensures Valid() && held == old(held) + multiset{data}
      ensures Grew(old(objs), objs) && freed == old(freed)
      ensures data < |objs| && Bytes(objs, data) == Clamped(old(Bytes(objs, dd)), offset, length)
      ensures old(Leaf(objs[dd])) && 0 < length && offset + length < old(objs[dd].size) ==>
        objs[data] == Obj(None, length, [Record(dd, offset, length)])
      ensures offset >= old(objs[dd].size) || length == 0 ==> data == 0
      ensures offset == 0 && 0 < length == old(objs[dd].size) ==> data == dd
      ensures data < |old(objs)| || Refers(objs[data])
      decreases if Leaf(objs[dd]) then 0 else 1, 1
    {
      var size, len := objs[dd].size, length;
      if offset >= size || length == 0 {
        held := held + multiset{0};
        return 0;
      } else if length > size - offset {
        len := size - offset;
      } else if length == size {
        Retain(dd);
        return dd;
      }
      ClampedIsPart(Bytes(objs, dd), offset, length, len);
      data := ProperSubrange(dd, offset, len);
    }

    /** The rest of dispatch_data_create_subrange, for a range inside the object. */
    method ProperSubrange(dd: Ref, offset: nat, length: nat) returns (data: Ref)
      requires Valid() && Live(dd) && 0 < length && offset + length <= objs[dd].size
      modifies this
      ensures Valid() && held == old(held) + multiset{data}
      ensures Grew(old(objs), objs) && freed == old(freed)
      ensures data < |objs| && Bytes(objs, data) == Part(old(Bytes(objs, dd)), offset, length)
      ensures old(Leaf(objs[dd])) ==> objs[data] == Obj(None, length, [Record(dd, offset, length)])
      ensures data < |old(objs)| || Refers(objs[data])
      decreases if Leaf(objs[dd]) then 0 else 1, 0
    {
      if Leaf(objs[dd]) {
        OneRecord(objs, freed, dd, offset, length);
        data := Add(Obj(None, length, [Record(dd, offset, length)]));
        return;
      }
      AsRecordsOk(objs, refs, freed, held, destroyed, dd);
      var recs := objs[dd].records;
      var i, rest, cut := Narrow(objs, freed, recs, objs[dd].size, offset, length);
      if cut == [] {
        ClampedIsPart(Bytes(objs, recs[i].obj), recs[i].from + rest, length, length);
        data := Subrange(recs[i].obj, recs[i].from + rest, length);
      } else {
        data := Add(Obj(None, length, cut));
      }
    }

    /** The loop of copy_region found the region; the recursion on its leaf, or the direct case, makes an object. */
    method MappedRegion(dd: Ref, from: nat, size: nat) returns (data: Ref)
      requires Valid() && Live(dd) && 0 < size && from + size <= objs[dd].size
      requires |objs[dd].records| > 1 ==> objs[dd].buf.Some? && from == 0 && size == objs[dd].size
      modifies this
      ensures Valid() && held == old(held) + multiset{data}
      ensures Grew(old(objs), objs) && freed == old(freed)
      ensures data < |objs| && Bytes(objs, data) == Part(old(Bytes(objs, dd)), from, size)
      ensures if from == 0 && size == old(objs[dd].size) then data == dd
              else data < |old(objs)| || Window(objs, objs[data])
    {
      if from == 0 && size == objs[dd].size {
        WholePart(Bytes(objs, dd));
        Retain(dd);
        return dd;
      }
      BehindTrivial(objs, refs, freed, held, destroyed, dd, from, size);
      var d := MapDirect(objs, dd, from);
      if d.from == 0 && size == objs[d.obj].size {
        WholePart(Bytes(objs, d.obj));
        Retain(d.obj);
        data := d.obj;
      } else {
        OneRecord(objs, freed, d.obj, d.from, size);
        data := Add(Obj(None, size, [Record(d.obj, d.from, size)]));
      }
    }

    /** dispatch_data_copy_region: the region that contains `location`, with its offset. */
    method CopyRegion(dd: Ref, location: nat) returns (data: Ref, offset: nat)
      requires Valid() && Live(dd)
      modifies this
      ensures Valid() && held == old(held) + multiset{data}
      ensures Grew(old(objs), objs) && freed == old(freed)
      ensures data < |objs|
      ensures if location >= old(objs[dd].size) then data == 0 && offset == old(objs[dd].size)
              else offset <= location < offset + |Bytes(objs, data)|
                   && IsRegion(old(objs), dd, offset, Bytes(objs, data))
      ensures location < old(objs[dd].size) && old(MapDirect(objs, dd, 0).mapped) ==> data == dd && offset == 0
      ensures data < |old(objs)| || Window(objs, objs[data])
    {
      if location >= objs[dd].size {
        held := held + multiset{0};
        return 0, objs[dd].size;
      }
      MapDirectReads(objs, dd, 0, 0);
      if MapDirect(objs, dd, 0).mapped {
        WholeRegion(objs, dd);
        data := MappedRegion(dd, 0, objs[dd].size);
        offset := 0;
      } else {
        data, offset := RecordOf(dd, location);
      }
    }

    /** The loop and the recursion of _dispatch_data_copy_region, for an object without a buffer. */
    method RecordOf(dd: Ref, location: nat) returns (data: Ref, offset: nat)
      requires Valid() && Live(dd) && location < objs[dd].size && |objs[dd].records| > 1 && objs[dd].buf.None?
      modifies this
      ensures Valid() && held == old(held) + multiset{data}
      ensures Grew(old(objs), objs) && freed == old(freed)
      ensures data < |objs| && offset <= location < offset + |Bytes(objs, data)|
      ensures IsRegion(old(objs), dd, offset, Bytes(objs, data))
      ensures data < |old(objs)| || Window(objs, objs[data])
    {
      var recs := objs[dd].records;
      AsRecordsOk(objs, refs, freed, held, destroyed, dd);
      PartsSized(objs, recs);
      var i, inner, length, off := FindRegion(recs, Parts(objs, recs), 0, objs[dd].size, location);
      RecordRegion(objs, dd, i);
      offset := off;
      data := MappedRegion(recs[i].obj, recs[i].from + inner, length);
    }

    /** dispatch_data_create_map: an object with the same bytes in one buffer, and that buffer. */
    method CreateMap(dd: Ref) returns (data: Ref, buffer: Option<seq<Byte>>)
      requires Valid() && Live(dd)
      modifies this
      ensures Valid() && held == old(held) + multiset{data}
      ensures Grew(old(objs), objs) && freed == old(freed)
      ensures data < |objs| && Bytes(objs, data) == old(Bytes(objs, dd))
      ensures buffer == if old(objs[dd].size) == 0 then None else Some(old(Bytes(objs, dd)))
      ensures old(objs[dd].size) > 0 ==>
        if old(MapDirect(objs, dd, 0).mapped) then data == dd else Leaf(objs[data]) && data == |old(objs)|
    {
      var size := objs[dd].size;
      if size == 0 {
        held := held + multiset{0};
        return 0, None;
      }
      MapDirectReads(objs, dd, 0, size);
      var d := MapDirect(objs, dd, 0);
      if d.mapped {
        WholePart(Bytes(objs, dd));
        buffer := Some(Part(objs[d.obj].buf.value, d.from, size));
        Retain(dd);
        data := dd;
      } else {
        var flat := Flatten(objs, dd);
        data := Create(flat);
        buffer := Some(flat);
      }
    }

    /** dispatch_data_get_flattened_bytes: the direct buffer, or a copy that is installed in the object. */
    method FlattenedBytes(dd: Ref) returns (buffer: Option<seq<Byte>>)
      requires Valid() && Live(dd)
      modifies this
      ensures Valid() && held == old(held) && freed == old(freed) && Grew(old(objs), objs)
      ensures buffer == if objs[dd].size == 0 then None else Some(old(Bytes(objs, dd)))
      ensures objs[dd].size > 0 ==> MapDirect(objs, dd, 0).mapped
    {
      var size := objs[dd].size;
      if size == 0 {
        return None;
      }
      MapDirectReads(objs, dd, 0, size);
      var d := MapDirect(objs, dd, 0);
      if d.mapped {
        WholePart(Bytes(objs, dd));
        buffer := Some(Part(objs[d.obj].buf.value, d.from, size));
      } else {
        var flat := Flatten(objs, dd);
        flat := Publish(dd, flat, objs);
        buffer := Some(flat);
      }
    }

    /** The compare-exchange that installs a flattened copy. The copy was made when the heap was `earlier`; whatever
        happened since, it is still right, and when another thread was faster its buffer holds the same bytes. */
    method Publish(dd: Ref, flat: seq<Byte>, ghost earlier: seq<Obj>) returns (buffer: seq<Byte>)
      requires Valid() && Live(dd) && |objs[dd].records| > 1
      requires WellFormed(earlier) && Grew(earlier, objs) && dd < |earlier| && flat == Bytes(earlier, dd)
      modifies this`objs
      ensures Valid() && Grew(old(objs), objs) && |objs| == |old(objs)| && Grew(earlier, objs)
      ensures buffer == flat == Bytes(objs, dd) && objs[dd].buf == Some(flat)
      ensures forall r :: 0 <= r < |objs| && r != dd ==> objs[r] == old(objs[r])
    {
      BytesKept(earlier, objs, dd);
      assert ObjOk(objs, objs[dd]);
      if objs[dd].buf.None? {
        FlattenedSound(objs, refs, freed, held, destroyed, dd);
        objs := objs[dd := objs[dd].(buf := Some(flat))];
        GrewTrans(earlier, old(objs), objs);
        BytesKept(earlier, objs, dd);
        buffer := flat;
      } else {
        buffer := objs[dd].buf.value;
      }
    }

    /** Two threads flatten the same object: the second one starts and ends while the first is between its copy and its
        compare-exchange. Both get the same bytes, from the buffer that the second one has installed. */
    method RacedFlatten(dd: Ref) returns (first: seq<Byte>, second: Option<seq<Byte>>)
      requires Valid() && Live(dd) && |objs[dd].records| > 1
      modifies this
      ensures Valid() && Grew(old(objs), objs) && held == old(held) && freed == old(freed)
      ensures second == Some(first) && first == old(Bytes(objs, dd)) && objs[dd].buf == Some(first)
    {
      ghost var earlier := objs;
      var flat := Flatten(objs, dd);
      Composite(objs, dd);
      second := FlattenedBytes(dd);
      first := Publish(dd, flat, earlier);
    }

    /** A client gives up one reference. */
    method Release(dd: Ref)
      requires Valid() && dd in held
      modifies this
      ensures Valid() && held == old(held) - multiset{dd} && objs == old(objs) && old(freed) <= freed
    {
      held := held - multiset{dd};
      if dd != 0 {
        Drop(dd, multiset{});
      }
    }

    /** Gives up one reference, disposes of the object with the last one, and then gives up those of its records. */
    method Drop(dd: Ref, ghost owed: multiset<Ref>)
      requires Sound(objs, refs, freed, held, destroyed, owed + multiset{dd}) && 0 < dd < |objs|
      modifies this`refs, this`freed, this`destroyed
      ensures Sound(objs, refs, freed, held, destroyed, owed) && old(freed) <= freed
      decreases if Leaf(objs[dd]) then 0 else 1, 2
    {
      HasReference(objs, refs, freed, held, owed, dd);
      if refs[dd] > 1 {
        DropOne(objs, refs, freed, held, destroyed, owed, dd);
        refs := refs[dd := refs[dd] - 1];
      } else {
        Dispose(dd, owed);
      }
    }

    /** The last reference goes: the object is freed, and _dispatch_data_dispose destroys its buffer or drops what its
        records refer to. */
    method Dispose(dd: Ref, ghost owed: multiset<Ref>)
      requires Sound(objs, refs, freed, held, destroyed, owed + multiset{dd}) && 0 < dd < |objs| && refs[dd] == 1
      modifies this`refs, this`freed, this`destroyed
      ensures Sound(objs, refs, freed, held, destroyed, owed) && old(freed) <= freed
      decreases if Leaf(objs[dd]) then 0 else 1, 1
    {
      DropLast(objs, refs, freed, held, destroyed, owed, dd);
      refs := refs[dd := 0];
      freed := freed + {dd};
      if Leaf(objs[dd]) {
        destroyed := destroyed[dd := destroyed[dd] + 1];
      } else {
        DropRecords(dd, owed);
      }
    }

    /** The loop of _dispatch_data_dispose. */
    method DropRecords(dd: Ref, ghost owed: multiset<Ref>)
      requires dd < |objs| && !Leaf(objs[dd])
      requires Sound(objs, refs, freed, held, destroyed, owed + Rest(objs[dd].records, 0))
      modifies this`refs, this`freed, this`destroyed
      ensures Sound(objs, refs, freed, held, destroyed, owed) && old(freed) <= freed
      decreases 1, 0
    {
      var recs := objs[dd].records;
      for i := 0 to |recs|
        invariant Sound(objs, refs, freed, held, destroyed, owed + Rest(recs, i))
        invariant old(freed) <= freed
      {
        RecordTarget(objs, dd, i);
        assert owed + Rest(recs, i + 1) + multiset{recs[i].obj} == owed + Rest(recs, i);
        Drop(recs[i].obj, owed + Rest(recs, i + 1));
      }
      assert owed + Rest(recs, |recs|) == owed;
    }
  }

  /** The first two of three bytes followed by all three: the applier's first region is two bytes, and the object it is
      given represents three. */
  method RegionCase() returns (h: Heap, dd: Ref)
    ensures h.Valid() && dd < |h.objs|
    ensures var regions := Regions(h.objs, dd);
            |regions| > 0 && regions[0].obj < |h.objs| && Bytes(h.objs, regions[0].obj) != regions[0].bytes
  {
    h := new Heap();
    var leaf := h.Create([1, 2, 3]);
    var front := h.Subrange(leaf, 0, 2);
    dd := h.Concat(front, leaf);
    assert h.objs[dd].records == [Record(leaf, 0, 2), Record(leaf, 0, 3)];
    RegionObject(h.objs, dd, 0);
  }
}
