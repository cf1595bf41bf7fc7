/** Dispatch data objects: immutable byte ropes of depth at most one, with reference counts. */
module Data {
  import opened Runs

  newtype Byte = b: int | 0 <= b < 256

  /** Objects are numbered in order of creation; a number is never reused. Number 0 is dispatch_data_empty. */
  type Ref = nat

  datatype Record = Record(obj: Ref, from: nat, length: nat)

  /** A leaf has no records and owns `buf`. A composite lists records; `buf` is its flattened copy, if it has one. */
  datatype Obj = Obj(buf: Option<seq<Byte>>, size: nat, records: seq<Record>)

  const EMPTY: Obj := Obj(Some([]), 0, [])

  predicate Leaf(o: Obj) { o.records == [] }

  predicate LeafOk(o: Obj) { Leaf(o) && o.buf.Some? && |o.buf.value| == o.size }

  /** A record covers a nonempty part of one leaf. */
  predicate RecordOk(objs: seq<Obj>, r: Record) {
    r.obj < |objs| && LeafOk(objs[r.obj]) && 0 < r.length && r.from + r.length <= objs[r.obj].size
  }

  predicate RecordsOk(objs: seq<Obj>, recs: seq<Record>) {
    forall i :: 0 <= i < |recs| ==> RecordOk(objs, recs[i])
  }

  /** Bytes `from` up to `from + length`, if there are that many. */
  function Part(b: seq<Byte>, from: nat, length: nat): (part: seq<Byte>)
    ensures from + length <= |b| ==> |part| == length
  {
    if from + length <= |b| then b[from..from + length] else []
  }

  function Slice(objs: seq<Obj>, r: Record): (b: seq<Byte>)
    ensures RecordOk(objs, r) ==> |b| == r.length
  {
    if RecordOk(objs, r) then Part(objs[r.obj].buf.value, r.from, r.length) else []
  }

  function Parts(objs: seq<Obj>, recs: seq<Record>): (parts: seq<seq<Byte>>)
    ensures |parts| == |recs|
  {
    seq(|recs|, k requires 0 <= k < |recs| => Slice(objs, recs[k]))
  }

  /** The parts from `i` up to `j`, one after the other. */
  function Join(parts: seq<seq<Byte>>, i: nat, j: nat): seq<Byte>
    requires i <= j <= |parts|
    decreases j
  {
    if i == j then [] else Join(parts, i, j - 1) + parts[j - 1]
  }

  /** Where part `i` starts in the joined bytes. */
  function At(parts: seq<seq<Byte>>, i: nat): nat
    requires i <= |parts|
  {
    |Join(parts, 0, i)|
  }

  /** The bytes a list of records stands for. */
  function Gather(objs: seq<Obj>, recs: seq<Record>): seq<Byte> { Join(Parts(objs, recs), 0, |recs|) }

  ghost predicate ObjOk(objs: seq<Obj>, o: Obj) {
    if Leaf(o) then LeafOk(o)
    else
      && RecordsOk(objs, o.records)
      && |Gather(objs, o.records)| == o.size
      && (o.buf.Some? ==> |o.records| > 1 && o.buf.value == Gather(objs, o.records))
  }

  /** Depth at most one, positive record lengths that add up to the size, flattened copies that agree. */
  ghost predicate WellFormed(objs: seq<Obj>) {
    && 0 < |objs| && objs[0] == EMPTY
    && forall r {:trigger ObjOk(objs, objs[r])} :: 0 <= r < |objs| ==> ObjOk(objs, objs[r])
  }

  /** The byte sequence an object represents. */
  ghost function Bytes(objs: seq<Obj>, dd: Ref): (b: seq<Byte>)
    requires WellFormed(objs) && dd < |objs|
    ensures |b| == objs[dd].size
  {
    assert ObjOk(objs, objs[dd]);
    if Leaf(objs[dd]) then objs[dd].buf.value else Gather(objs, objs[dd].records)
  }

  /** What an object contributes to a list of records: itself as one record, or the records it has. */
  function AsRecords(objs: seq<Obj>, dd: Ref): seq<Record>
    requires dd < |objs|
  {
    if Leaf(objs[dd]) then [Record(dd, 0, objs[dd].size)] else objs[dd].records
  }

  // Parts of byte sequences.

  lemma PartOfPart(b: seq<Byte>, from: nat, length: nat, rest: nat, n: nat)
    requires from + length <= |b| && rest + n <= length
    ensures Part(Part(b, from, length), rest, n) == Part(b, from + rest, n)
  {
    var part, whole := b[from..from + length][rest..rest + n], b[from + rest..from + rest + n];
    forall k | 0 <= k < n ensures part[k] == whole[k] {
      assert part[k] == b[from..from + length][rest + k] == b[from + rest + k];
    }
  }

  lemma WholePart(b: seq<Byte>)
    ensures Part(b, 0, |b|) == b
  {
  }

  lemma {:induction false} JoinSplit(parts: seq<seq<Byte>>, i: nat, j: nat, k: nat)
    requires i <= j <= k <= |parts|
    ensures Join(parts, i, k) == Join(parts, i, j) + Join(parts, j, k)
    decreases k
  {
    if j < k {
      JoinSplit(parts, i, j, k - 1);
    }
  }

  lemma {:induction false} JoinShift(parts: seq<seq<Byte>>, other: seq<seq<Byte>>, i: nat, j: nat, d: int)
    requires i <= j <= |parts| && 0 <= i + d && j + d <= |other|
    requires forall k :: i <= k < j ==> parts[k] == other[k + d]
    ensures Join(parts, i, j) == Join(other, i + d, j + d)
    decreases j
  {
    if i < j {
      JoinShift(parts, other, i, j - 1, d);
    }
  }

  lemma JoinAround(parts: seq<seq<Byte>>, i: nat, k: nat, j: nat)
    requires i <= k < j <= |parts|
    ensures Join(parts, i, j) == Join(parts, i, k) + parts[k] + Join(parts, k + 1, j)
  {
    JoinSplit(parts, i, k + 1, j);
  }

  /** Where the bytes of one part are. */
  lemma PartAt(parts: seq<seq<Byte>>, i: nat)
    requires i < |parts|
    ensures At(parts, i) + |parts[i]| <= At(parts, |parts|)
    ensures Part(Join(parts, 0, |parts|), At(parts, i), |parts[i]|) == parts[i]
  {
    JoinAround(parts, 0, i, |parts|);
  }

  lemma PartInside(parts: seq<seq<Byte>>, i: nat, rest: nat, n: nat)
    requires i < |parts| && rest + n <= |parts[i]|
    ensures Part(Join(parts, 0, |parts|), At(parts, i) + rest, n) == Part(parts[i], rest, n)
  {
    PartAt(parts, i);
    PartOfPart(Join(parts, 0, |parts|), At(parts, i), |parts[i]|, rest, n);
  }

  lemma {:induction false} JoinSame(parts: seq<seq<Byte>>, other: seq<seq<Byte>>, n: nat)
    requires n <= |parts| && n <= |other|
    requires forall k :: 0 <= k < n ==> parts[k] == other[k]
    ensures Join(parts, 0, n) == Join(other, 0, n)
  {
    if n > 0 {
      JoinSame(parts, other, n - 1);
    }
  }

  lemma JoinConcat(a: seq<seq<Byte>>, b: seq<seq<Byte>>, all: seq<seq<Byte>>, n: nat, m: nat)
    requires |a| == n && |b| == m && |all| == n + m
    requires forall k :: 0 <= k < n ==> a[k] == all[k]
    requires forall k :: 0 <= k < m ==> b[k] == all[k + n]
    ensures Join(all, 0, n + m) == Join(a, 0, n) + Join(b, 0, m)
  {
    JoinSame(a, all, n);
    JoinShift(b, all, 0, m, n);
    JoinSplit(all, 0, n, n + m);
  }

  lemma JoinOne(part: seq<Byte>)
    ensures Join([part], 0, 1) == part
  {
    assert Join([part], 0, 1) == Join([part], 0, 0) + part;
  }

  /** Parts `i` to `i + n`, trimmed at both ends, are a part of the whole. */
  lemma TrimmedIsPart(parts: seq<seq<Byte>>, total: nat, i: nat, n: nat, offset: nat, last: nat, length: nat)
    requires |parts| == total && 0 < n && i + n < total && offset <= |parts[i]| && last <= |parts[i + n]|
    requires At(parts, i) + offset + length == At(parts, i + n) + last
    ensures parts[i][offset..] + Join(parts, i + 1, i + n) + parts[i + n][..last]
            == Part(Join(parts, 0, total), At(parts, i) + offset, length)
  {
    var a, b, c, d, e := Join(parts, 0, i), parts[i], Join(parts, i + 1, i + n), parts[i + n], Join(parts, i + n + 1, total);
    assert Join(parts, 0, i + n) == a + b + c by { JoinAround(parts, 0, i, i + n); }
    assert Join(parts, 0, total) == a + b + c + d + e by { JoinAround(parts, 0, i + n, total); }
    TrimBytes(a, b, c, d, e, offset, last, length);
  }

  /** `cut` is parts `i` to `i + n` of `parts`, the first without `offset` bytes and the last cut to `last` bytes. */
  ghost predicate CutOf(parts: seq<seq<Byte>>, cut: seq<seq<Byte>>, i: nat, n: nat, offset: nat, last: nat) {
    && 0 < n && i + n < |parts| && |cut| == n + 1 && offset <= |parts[i]| && last <= |parts[i + n]|
    && cut[0] == parts[i][offset..] && cut[n] == parts[i + n][..last]
    && forall k :: 1 <= k < n ==> cut[k] == parts[k + i]
  }

  lemma CutJoined(parts: seq<seq<Byte>>, cut: seq<seq<Byte>>, i: nat, n: nat, offset: nat, last: nat)
    requires CutOf(parts, cut, i, n, offset, last)
    ensures Join(cut, 0, n + 1) == parts[i][offset..] + Join(parts, i + 1, i + n) + parts[i + n][..last]
  {
    JoinShift(cut, parts, 1, n, i);
    JoinAround(cut, 0, 0, n);
  }

  lemma CutIsPart(parts: seq<seq<Byte>>, total: nat, cut: seq<seq<Byte>>, i: nat, n: nat, offset: nat, last: nat, length: nat)
    requires |parts| == total && CutOf(parts, cut, i, n, offset, last)
    requires At(parts, i) + offset + length == At(parts, i + n) + last
    ensures Join(cut, 0, n + 1) == Part(Join(parts, 0, total), At(parts, i) + offset, length)
  {
    CutJoined(parts, cut, i, n, offset, last);
    TrimmedIsPart(parts, total, i, n, offset, last, length);
  }

  lemma TrimBytes(a: seq<Byte>, b: seq<Byte>, c: seq<Byte>, d: seq<Byte>, e: seq<Byte>, offset: nat, last: nat, length: nat)
    requires offset <= |b| && last <= |d| && length == |b| - offset + |c| + last
    ensures b[offset..] + c + d[..last] == Part(a + b + c + d + e, |a| + offset, length)
  {
  }

  // dispatch_data_create_subrange: which records a range needs.

  predicate Sized(recs: seq<Record>, parts: seq<seq<Byte>>) {
    |parts| == |recs| && forall k :: 0 <= k < |recs| ==> |parts[k]| == recs[k].length
  }

  /** The first loop: the record that contains `offset`, and the offset inside it. */
  method FindFirst(recs: seq<Record>, ghost parts: seq<seq<Byte>>, offset: nat) returns (i: nat, rest: nat)
    requires Sized(recs, parts) && offset < At(parts, |parts|)
    ensures i < |recs| && rest < recs[i].length
    ensures At(parts, i) + rest == offset
  {
    i, rest := 0, offset;
    while i < |recs| && rest >= recs[i].length
      invariant i <= |recs| && At(parts, i) + rest == offset
    {
      rest := rest - recs[i].length;
      i := i + 1;
    }
  }

  /** The second loop: how many records from `i` on a range of `length` bytes needs, and how much of the last one.
      The assertion is the crash branch that is never taken. */
  method FindLast(recs: seq<Record>, ghost parts: seq<seq<Byte>>, i: nat, offset: nat, length: nat)
      returns (count: nat, last: nat)
    requires Sized(recs, parts) && i < |recs| && offset < recs[i].length < offset + length
    requires At(parts, i) + offset + length < At(parts, |parts|)
    ensures 1 < count <= |recs| - i && 0 < last <= recs[i + count - 1].length
    ensures At(parts, i + count - 1) + last == At(parts, i) + offset + length
  {
    last := length - (recs[i].length - offset);
    count := 1;
    while i + count < |recs|
      invariant 1 <= count && i + count < |recs|
      invariant 0 < last && At(parts, i + count) + last == At(parts, i) + offset + length
    {
      var recordLength := recs[i + count].length;
      count := count + 1;
      if last <= recordLength {
        break;
      }
      last := last - recordLength;
      assert i + count < |recs|;
    }
  }

  /** The records `i` up to `i + count`, the first without its first `offset` bytes, the last cut to `last`. */
  function Trimmed(recs: seq<Record>, i: nat, count: nat, offset: nat, last: nat): (cut: seq<Record>)
    requires 1 < count && i + count <= |recs| && offset < recs[i].length
    ensures |cut| == count
  {
    seq(count, k requires 0 <= k < count => TrimmedAt(recs, i, count, offset, last, k))
  }

  function TrimmedAt(recs: seq<Record>, i: nat, count: nat, offset: nat, last: nat, k: nat): Record
    requires 1 < count && i + count <= |recs| && offset < recs[i].length && k < count
  {
    if k == 0 then Record(recs[i].obj, recs[i].from + offset, recs[i].length - offset)
    else if k == count - 1 then recs[i + k].(length := last)
    else recs[i + k]
  }

  lemma TrimmedOk(objs: seq<Obj>, recs: seq<Record>, i: nat, count: nat, offset: nat, last: nat)
    requires RecordsOk(objs, recs) && 1 < count && i + count <= |recs|
    requires offset < recs[i].length && 0 < last <= recs[i + count - 1].length
    ensures RecordsOk(objs, Trimmed(recs, i, count, offset, last))
  {
    var cut := Trimmed(recs, i, count, offset, last);
    forall k | 0 <= k < count ensures RecordOk(objs, cut[k]) {
      assert RecordOk(objs, recs[i + k]);
    }
  }

  lemma TrimmedCut(objs: seq<Obj>, recs: seq<Record>, i: nat, count: nat, rest: nat, last: nat)
    requires 1 < count && i + count <= |recs| && RecordOk(objs, recs[i]) && RecordOk(objs, recs[i + count - 1])
    requires rest < recs[i].length && 0 < last <= recs[i + count - 1].length
    ensures CutOf(Parts(objs, recs), Parts(objs, Trimmed(recs, i, count, rest, last)), i, count - 1, rest, last)
  {
    var parts, cut, n := Parts(objs, recs), Parts(objs, Trimmed(recs, i, count, rest, last)), count - 1;
    assert cut[0] == parts[i][rest..] by { TrimmedFirst(objs, recs[i], rest); }
    assert cut[n] == parts[i + n][..last] by { TrimmedLast(objs, recs[i + n], last); }
    forall k | 1 <= k < n ensures cut[k] == parts[k + i] {
      assert TrimmedAt(recs, i, count, rest, last, k) == recs[k + i];
    }
  }

  lemma TrimmedFirst(objs: seq<Obj>, r: Record, offset: nat)
    requires RecordOk(objs, r) && offset < r.length
    ensures Slice(objs, Record(r.obj, r.from + offset, r.length - offset)) == Slice(objs, r)[offset..]
  {
    PartOfPart(objs[r.obj].buf.value, r.from, r.length, offset, r.length - offset);
  }

  lemma TrimmedLast(objs: seq<Obj>, r: Record, last: nat)
    requires RecordOk(objs, r) && 0 < last <= r.length
    ensures Slice(objs, r.(length := last)) == Slice(objs, r)[..last]
  {
    PartOfPart(objs[r.obj].buf.value, r.from, r.length, 0, last);
  }

  lemma PartsSized(objs: seq<Obj>, recs: seq<Record>)
    requires RecordsOk(objs, recs)
    ensures Sized(recs, Parts(objs, recs))
  {
    forall k | 0 <= k < |recs| ensures |Parts(objs, recs)[k]| == recs[k].length {
      assert RecordOk(objs, recs[k]);
    }
  }

  // Objects keep their bytes while the heap grows and composites get flattened.

  ghost predicate Grew(objs: seq<Obj>, later: seq<Obj>) {
    && |objs| <= |later|
    && forall r :: 0 <= r < |objs| ==> objs[r] == later[r] || (!Leaf(objs[r]) && objs[r].(buf := later[r].buf) == later[r])
  }

  lemma GrewTrans(a: seq<Obj>, b: seq<Obj>, c: seq<Obj>)
    requires Grew(a, b) && Grew(b, c)
    ensures Grew(a, c)
  {
    forall r | 0 <= r < |a| ensures a[r] == c[r] || (!Leaf(a[r]) && a[r].(buf := c[r].buf) == c[r]) {
      assert b[r] == c[r] || (!Leaf(b[r]) && b[r].(buf := c[r].buf) == c[r]);
    }
  }

  lemma PartsKept(objs: seq<Obj>, later: seq<Obj>, recs: seq<Record>)
    requires Grew(objs, later) && RecordsOk(objs, recs)
    ensures RecordsOk(later, recs) && Parts(objs, recs) == Parts(later, recs)
  {
    forall k | 0 <= k < |recs| ensures RecordOk(later, recs[k]) && Slice(objs, recs[k]) == Slice(later, recs[k]) {
      assert RecordOk(objs, recs[k]);
    }
  }

  /** Whatever happens later, an object goes on representing the same bytes. */
  lemma BytesKept(objs: seq<Obj>, later: seq<Obj>, dd: Ref)
    requires WellFormed(objs) && WellFormed(later) && Grew(objs, later) && dd < |objs|
    ensures Bytes(objs, dd) == Bytes(later, dd) && objs[dd].size == later[dd].size
  {
    assert ObjOk(objs, objs[dd]);
    if !Leaf(objs[dd]) {
      PartsKept(objs, later, objs[dd].records);
    }
  }

  lemma ObjKept(objs: seq<Obj>, later: seq<Obj>, o: Obj)
    requires Grew(objs, later) && ObjOk(objs, o)
    ensures ObjOk(later, o)
  {
    if !Leaf(o) {
      PartsKept(objs, later, o.records);
    }
  }

  lemma Extended(objs: seq<Obj>, o: Obj)
    requires WellFormed(objs) && ObjOk(objs, o)
    ensures WellFormed(objs + [o]) && Grew(objs, objs + [o])
  {
    var later := objs + [o];
    assert Grew(objs, later);
    forall r | 0 <= r < |later| ensures ObjOk(later, later[r]) {
      assert r < |objs| ==> ObjOk(objs, objs[r]);
      ObjKept(objs, later, later[r]);
    }
  }

  lemma FlattenedIn(objs: seq<Obj>, dd: Ref)
    requires WellFormed(objs) && dd < |objs| && |objs[dd].records| > 1 && objs[dd].buf.None?
    ensures var later := objs[dd := objs[dd].(buf := Some(Bytes(objs, dd)))];
            WellFormed(later) && Grew(objs, later)
  {
    var o := objs[dd].(buf := Some(Bytes(objs, dd)));
    var later := objs[dd := o];
    assert ObjOk(objs, objs[dd]);
    assert Grew(objs, later);
    forall r | 0 <= r < |later| ensures ObjOk(later, later[r]) {
      assert ObjOk(objs, objs[r]);
      ObjKept(objs, later, later[r]);
    }
  }

  // Reference counting.

  /** The objects that the records from `i` on refer to. */
  ghost function Rest(recs: seq<Record>, i: nat): multiset<Ref>
    requires i <= |recs|
    decreases |recs| - i
  {
    if i == |recs| then multiset{} else multiset{recs[i].obj} + Rest(recs, i + 1)
  }

  ghost function Sum(ms: seq<multiset<Ref>>, n: nat): multiset<Ref>
    requires n <= |ms|
  {
    if n == 0 then multiset{} else Sum(ms, n - 1) + ms[n - 1]
  }

  /** The references held by the records of each object that is not freed. */
  ghost function Owned(objs: seq<Obj>, freed: set<Ref>): (ms: seq<multiset<Ref>>)
    ensures |ms| == |objs|
  {
    seq(|objs|, q requires 0 <= q < |objs| => if q in freed then multiset{} else Rest(objs[q].records, 0))
  }

  /** All references from records of live objects. */
  ghost function Pointers(objs: seq<Obj>, freed: set<Ref>): multiset<Ref> { Sum(Owned(objs, freed), |objs|) }

  lemma {:induction false} SumChange(ms: seq<multiset<Ref>>, other: seq<multiset<Ref>>, q: nat, n: nat, r: Ref)
    requires n <= |ms| == |other| && q < |ms|
    requires forall k :: 0 <= k < |ms| && k != q ==> ms[k] == other[k]
    ensures Sum(ms, n)[r] + (if q < n then other[q][r] else 0) == Sum(other, n)[r] + (if q < n then ms[q][r] else 0)
  {
    if n > 0 {
      SumChange(ms, other, q, n - 1, r);
    }
  }

  lemma {:induction false} SumHas(ms: seq<multiset<Ref>>, n: nat, q: nat, r: Ref)
    requires q < n <= |ms| && r in ms[q]
    ensures r in Sum(ms, n)
  {
    if q < n - 1 {
      SumHas(ms, n - 1, q, r);
    }
  }

  lemma {:induction false} SumWitness(ms: seq<multiset<Ref>>, n: nat, r: Ref) returns (q: nat)
    requires n <= |ms| && r in Sum(ms, n)
    ensures q < n && r in ms[q]
  {
    if r in ms[n - 1] {
      q := n - 1;
    } else {
      q := SumWitness(ms, n - 1, r);
    }
  }

  lemma PointersFlattened(objs: seq<Obj>, later: seq<Obj>, freed: set<Ref>)
    requires Grew(objs, later) && |objs| == |later|
    ensures Pointers(objs, freed) == Pointers(later, freed)
  {
    assert Owned(objs, freed) == Owned(later, freed);
  }

  lemma {:induction false} SumPrefix(ms: seq<multiset<Ref>>, m: multiset<Ref>, n: nat)
    requires n <= |ms|
    ensures Sum(ms + [m], n) == Sum(ms, n)
  {
    if n > 0 {
      SumPrefix(ms, m, n - 1);
    }
  }

  lemma PointersExtended(objs: seq<Obj>, o: Obj, freed: set<Ref>)
    requires |objs| !in freed
    ensures Pointers(objs + [o], freed) == Pointers(objs, freed) + Rest(o.records, 0)
  {
    var ms := Owned(objs, freed);
    assert Owned(objs + [o], freed) == ms + [Rest(o.records, 0)];
    SumPrefix(ms, Rest(o.records, 0), |ms|);
  }

  /** Freeing an object gives up exactly the references of its records. */
  lemma PointersFreed(objs: seq<Obj>, freed: set<Ref>, q: Ref, r: Ref)
    requires q < |objs| && q !in freed
    ensures Pointers(objs, freed)[r] == Pointers(objs, freed + {q})[r] + Rest(objs[q].records, 0)[r]
  {
    SumChange(Owned(objs, freed), Owned(objs, freed + {q}), q, |objs|, r);
  }

  lemma {:induction false} RestHas(recs: seq<Record>, i: nat, k: nat)
    requires i <= k < |recs|
    ensures recs[k].obj in Rest(recs, i)
    decreases k - i
  {
    if i < k {
      RestHas(recs, i + 1, k);
    }
  }

  lemma {:induction false} RestWitness(recs: seq<Record>, i: nat, r: Ref) returns (k: nat)
    requires i <= |recs| && r in Rest(recs, i)
    ensures k < |recs| && recs[k].obj == r
    decreases |recs| - i
  {
    if recs[i].obj == r {
      k := i;
    } else {
      k := RestWitness(recs, i + 1, r);
    }
  }

  lemma PointersHave(objs: seq<Obj>, freed: set<Ref>, q: Ref, k: nat)
    requires q < |objs| && q !in freed && k < |objs[q].records|
    ensures objs[q].records[k].obj in Pointers(objs, freed)
  {
    RestHas(objs[q].records, 0, k);
    SumHas(Owned(objs, freed), |objs|, q, objs[q].records[k].obj);
  }

  lemma PointersWitness(objs: seq<Obj>, freed: set<Ref>, r: Ref) returns (q: Ref, k: nat)
    requires r in Pointers(objs, freed)
    ensures q < |objs| && q !in freed && k < |objs[q].records| && objs[q].records[k].obj == r
  {
    q := SumWitness(Owned(objs, freed), |objs|, r);
    k := RestWitness(objs[q].records, 0, r);
  }

  /** Only leaves are pointed at. */
  lemma PointedIsLeaf(objs: seq<Obj>, freed: set<Ref>, r: Ref)
    requires WellFormed(objs) && r in Pointers(objs, freed)
    ensures 0 < r < |objs| && Leaf(objs[r])
  {
    var q, k := PointersWitness(objs, freed, r);
    assert ObjOk(objs, objs[q]) && RecordOk(objs, objs[q].records[k]);
  }

  /** Reference counts are the references clients hold, plus the records of live objects, plus the references
      that a release under way still has to give up. */
  ghost predicate Counted(objs: seq<Obj>, refs: seq<nat>, freed: set<Ref>, held: multiset<Ref>, owed: multiset<Ref>) {
    && |refs| == |objs|
    && forall r {:trigger refs[r]} :: 0 < r < |objs| ==> refs[r] == held[r] + Pointers(objs, freed)[r] + owed[r]
  }

  /** Exactly the objects without references are freed, and the buffers of exactly the freed leaves were destroyed,
      once each. */
  ghost predicate Disposed(objs: seq<Obj>, refs: seq<nat>, freed: set<Ref>, destroyed: seq<nat>) {
    && |refs| == |objs| == |destroyed|
    && (forall r :: r in freed ==> 0 < r < |objs|)
    && (forall r {:trigger refs[r]} :: 0 < r < |objs| ==> (r in freed <==> refs[r] == 0))
    && (forall r {:trigger destroyed[r]} :: 0 <= r < |objs| ==> destroyed[r] == if r in freed && Leaf(objs[r]) then 1 else 0)
  }

  /** Records of live objects refer to live objects. */
  lemma RecordsLive(objs: seq<Obj>, refs: seq<nat>, freed: set<Ref>, held: multiset<Ref>, destroyed: seq<nat>, q: Ref, k: nat)
    requires WellFormed(objs) && Counted(objs, refs, freed, held, multiset{}) && Disposed(objs, refs, freed, destroyed)
    requires q < |objs| && q !in freed && k < |objs[q].records|
    ensures objs[q].records[k].obj !in freed
  {
    var r := objs[q].records[k].obj;
    PointersHave(objs, freed, q, k);
    PointedIsLeaf(objs, freed, r);
    assert refs[r] > 0;
  }

  ghost predicate ReachableFrom(objs: seq<Obj>, held: multiset<Ref>, r: Ref) {
    r in held || exists q :: q in held && 0 < q < |objs| && RefersTo(objs[q], r)
  }

  ghost predicate RefersTo(o: Obj, r: Ref) { exists k :: 0 <= k < |o.records| && o.records[k].obj == r }

  /** Nothing points at a composite, so a live one is held by a client. */
  lemma CompositeHeld(objs: seq<Obj>, refs: seq<nat>, freed: set<Ref>, held: multiset<Ref>, destroyed: seq<nat>, q: Ref)
    requires WellFormed(objs) && Counted(objs, refs, freed, held, multiset{}) && Disposed(objs, refs, freed, destroyed)
    requires q < |objs| && q !in freed && !Leaf(objs[q])
    ensures q in held && q > 0
  {
    assert objs[q] != EMPTY && refs[q] > 0;
    if q in Pointers(objs, freed) {
      PointedIsLeaf(objs, freed, q);
    }
  }

  /** An object is live exactly while a client can still reach it, and a leaf's buffer has been destroyed, once,
      exactly when no client can. */
  lemma LiveIffReachable(objs: seq<Obj>, refs: seq<nat>, freed: set<Ref>, held: multiset<Ref>, destroyed: seq<nat>, r: Ref)
    requires WellFormed(objs) && Counted(objs, refs, freed, held, multiset{}) && Disposed(objs, refs, freed, destroyed)
    requires 0 < r < |objs|
    ensures r !in freed <==> ReachableFrom(objs, held, r)
    ensures Leaf(objs[r]) ==> destroyed[r] == if ReachableFrom(objs, held, r) then 0 else 1
  {
    assert r in freed <==> refs[r] == 0;
    if r !in freed && r !in held {
      var q, k := PointersWitness(objs, freed, r);
      CompositeHeld(objs, refs, freed, held, destroyed, q);
      assert RefersTo(objs[q], r);
    }
    forall q | q in held && 0 < q < |objs| && RefersTo(objs[q], r) ensures r !in freed {
      var k :| 0 <= k < |objs[q].records| && objs[q].records[k].obj == r;
      assert refs[q] > 0;
      RecordsLive(objs, refs, freed, held, destroyed, q, k);
    }
  }
}
