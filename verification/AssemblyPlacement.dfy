/**
 References to sub-assemblies, data and the program size: what they point at,
 and when the room reserved for them is enough.
 */
module AssemblyPlacement {
  import opened Bytes
  import opened Instructions
  import opened AssemblyModel
  import opened Assembler
  import opened AssemblyTheorems

  function Order(e: Env): seq<nat> {
    SubOrder(e.asm.items, |e.asm.items|)
  }

  /** The sub-assembly whose copy comes `k`-th. */
  function CopyId(e: Env, k: nat): nat
    requires k < |Order(e)|
  {
    e.asm.items[Order(e)[k]].id
  }

  // ---------------------------------------------------------------- what references point at

  lemma {:induction false} CopyInPlace(e: Env, k: nat, m: nat)
    requires k < m <= |Order(e)|
    ensures SubCopies(e, k) + SubBytes(e, CopyId(e, k)) <= SubCopies(e, m)
    decreases m
  {
    hide SubBytes;
    if k < m - 1 {
      CopyInPlace(e, k, m - 1);
    }
  }

  lemma {:induction false} DataInPlace(e: Env, k: nat, m: nat)
    requires k < m <= |e.asm.data| && IsReferenced(e.asm.items, e.asm.data[k].hash)
    ensures DataBytes(e, k) + e.asm.data[k].bytes <= DataBytes(e, m)
    decreases m
  {
    hide IsReferenced;
    if k < m - 1 {
      DataInPlace(e, k, m - 1);
    }
  }

  lemma SliceOf(before: seq<Byte>, piece: seq<Byte>, whole: seq<Byte>, prefix: seq<Byte>, suffix: seq<Byte>)
    requires before + piece <= whole
    ensures var all, at := prefix + whole + suffix, |prefix| + |before|;
            at + |piece| <= |all| && all[at..at + |piece|] == piece
  {
    var all, at := prefix + whole + suffix, |prefix| + |before|;
    assert whole[|before|..|before| + |piece|] == piece;
    assert all[at..at + |piece|] == whole[|before|..|before| + |piece|];
  }

  /** A PushSub refers to a verbatim copy of its sub-assembly's bytecode. */
  lemma SubReferenceIsRight(e: Env, operands: seq<nat>, out: Assembled, i: nat)
    requires Laid(e, operands, out) && i < |e.asm.items| && e.asm.items[i].PushSub?
    ensures var sub := SubById(e.subs, e.asm.subPaths, e.asm.items[i].id);
            && sub.Some? && |operands| == |e.asm.items|
            && var copy := sub.value.linked.bytecode;
               operands[i] + |copy| <= |out.linked.bytecode| &&
               out.linked.bytecode[operands[i]..operands[i] + |copy|] == copy
  {
    hide Laid, Code, SubCopies, SubOrder, DataBytes, Marker, SubById, Emittable, Offset;
    LaidCode(e, operands, out);
    LaidSubs(e, operands, out, i);
    var k :| 0 <= k < |Order(e)| && Order(e)[k] == i;
    CopyInPlace(e, k, |Order(e)|);
    var code := Code(e, operands, |operands|);
    var rest := DataBytes(e, |e.asm.data|) + e.asm.auxiliary;
    SliceOf(SubCopies(e, k), SubBytes(e, CopyId(e, k)), AllSubCopies(e), code + Marker(e), rest);
    assert out.linked.bytecode == code + Marker(e) + AllSubCopies(e) + rest;
  }

  lemma LaidSubs(e: Env, operands: seq<nat>, out: Assembled, i: nat)
    requires Laid(e, operands, out) && i < |e.asm.items| && e.asm.items[i].PushSub?
    ensures |operands| == |e.asm.items| && SubById(e.subs, e.asm.subPaths, e.asm.items[i].id).Some?
    ensures i in Order(e)
    ensures forall k :: 0 <= k < |Order(e)| ==> operands[Order(e)[k]] == SubOffset(e, k)
  {
    hide Code, Trailer, Emittable, TagTable, TagTarget, SubOffset, SubById;
    SubOrderComplete(e.asm.items, |e.asm.items|, i);
  }

  /** A PushData whose hash is known refers to that data. */
  lemma DataReferenceIsRight(e: Env, operands: seq<nat>, out: Assembled, i: nat, k: nat)
    requires Laid(e, operands, out) && i < |e.asm.items| && k < |e.asm.data|
    requires e.asm.items[i] == PushData(e.asm.data[k].hash)
    ensures var bytes := e.asm.data[k].bytes;
            && |operands| == |e.asm.items| && operands[i] + |bytes| <= |out.linked.bytecode|
            && out.linked.bytecode[operands[i]..operands[i] + |bytes|] == bytes
  {
    hide Laid, Code, AllSubCopies, DataBytes, Marker, Emittable, Offset;
    LaidCode(e, operands, out);
    LaidData(e, operands, out, i, k);
    assert IsReferenced(e.asm.items, e.asm.data[k].hash);
    DataInPlace(e, k, |e.asm.data|);
    var front := Code(e, operands, |operands|) + Marker(e) + AllSubCopies(e);
    SliceOf(DataBytes(e, k), e.asm.data[k].bytes, DataBytes(e, |e.asm.data|), front, e.asm.auxiliary);
    assert out.linked.bytecode == front + DataBytes(e, |e.asm.data|) + e.asm.auxiliary;
  }

  lemma LaidData(e: Env, operands: seq<nat>, out: Assembled, i: nat, k: nat)
    requires Laid(e, operands, out) && i < |e.asm.items| && k < |e.asm.data|
    requires e.asm.items[i] == PushData(e.asm.data[k].hash)
    ensures |operands| == |e.asm.items| && operands[i] == DataOffset(e, k)
  {
    hide Code, Trailer, Emittable, TagTable, TagTarget, SubOffset, DataOffset;
  }

  /** PushProgramSize refers to the length of the whole object. */
  lemma SizeReferenceIsRight(e: Env, operands: seq<nat>, out: Assembled, i: nat)
    requires Laid(e, operands, out) && i < |e.asm.items| && e.asm.items[i].PushProgramSize?
    ensures |operands| == |e.asm.items| && operands[i] == |out.linked.bytecode|
  {
    LaidCode(e, operands, out);
    hide Code, Trailer, Emittable, TagTable, TagTarget, SubOffset, DataOffset;
  }

  // ---------------------------------------------------------------- which references are pushed exactly

  /** A reference to a sub-assembly, to data or to the program size. */
  predicate IsReference(e: Env, i: nat) {
    i < |e.asm.items| && KindOf(e.asm.items[i]) in {SubRef, DataRef, SizeRef}
  }

  /** The instruction of item `i` pushes the whole number it is meant to push. */
  predicate PushedExactly(e: Env, operands: seq<nat>, i: nat) {
    i < |e.asm.items| == |operands| && GoodWidths(e) &&
    FinalInstrs(e, operands, i) == [Instr(PushOp(e.refWidth), operands[i])]
  }

  ghost predicate AllPushedExactly(e: Env, operands: seq<nat>) {
    forall i: nat :: IsReference(e, i) ==> PushedExactly(e, operands, i)
  }

  ghost predicate SomeReferenceTo(e: Env, operands: seq<nat>, target: nat) {
    |operands| == |e.asm.items| && exists i: nat :: IsReference(e, i) && operands[i] == target
  }

  lemma ExactlyIfFits(e: Env, operands: seq<nat>, i: nat)
    requires i < |e.asm.items| == |operands| && GoodWidths(e) && IsReference(e, i)
    ensures PushedExactly(e, operands, i) <==> operands[i] < Pow256(e.refWidth)
  {
    hide Pow256;
    Pow256Positive(e.refWidth);
    var capacity := Pow256(e.refWidth);
    if operands[i] < capacity {
      DivModUnique(operands[i], 0, operands[i], capacity);
    } else {
      RestBelow(operands[i], capacity);
    }
  }

  lemma RestBelow(v: nat, p: nat)
    requires p > 0
    ensures v % p < p
  {
  }

  predicate PushesSize(e: Env) {
    exists i :: 0 <= i < |e.asm.items| && e.asm.items[i].PushProgramSize?
  }

  /** One more than the index of the last data object below `n` that is referred to, or 0. */
  function LastData(e: Env, n: nat): (k: nat)
    requires n <= |e.asm.data|
    ensures k <= n && (k > 0 ==> IsReferenced(e.asm.items, e.asm.data[k - 1].hash))
  {
    if n == 0 then 0 else if IsReferenced(e.asm.items, e.asm.data[n - 1].hash) then n else LastData(e, n - 1)
  }

  /** The largest number any reference is meant to push. It depends only on the
      items and on the sizes of what is appended. */
  function LastTarget(e: Env): nat {
    if PushesSize(e) then TotalSize(e)
    else if LastData(e, |e.asm.data|) > 0 then DataOffset(e, LastData(e, |e.asm.data|) - 1)
    else if Order(e) != [] then SubOffset(e, |Order(e)| - 1)
    else 0
  }

  lemma {:induction false} LastDataIsLast(e: Env, n: nat, k: nat)
    requires k < n <= |e.asm.data| && IsReferenced(e.asm.items, e.asm.data[k].hash)
    ensures k < LastData(e, n)
    decreases n
  {
    hide IsReferenced;
    if k < n - 1 {
      LastDataIsLast(e, n - 1, k);
    }
  }

  lemma {:induction false} DataGrows(e: Env, j: nat, k: nat)
    requires j <= k <= |e.asm.data|
    ensures |DataBytes(e, j)| <= |DataBytes(e, k)|
    decreases k
  {
    hide IsReferenced;
    if j < k {
      DataGrows(e, j, k - 1);
    }
  }

  /** Everything meant by a reference to a copy comes before the data ... */
  lemma SubTargetBound(e: Env, k: nat)
    requires k < |Order(e)|
    ensures SubOffset(e, k) <= LastTarget(e)
  {
    hide SubOrder, Offset, Marker, SubCopies, DataBytes, IsReferenced;
    CopiesGrow(e, k, |Order(e)| - 1);
    CopiesGrow(e, |Order(e)| - 1, |Order(e)|);
  }

  /** ... and the data before the end. */
  lemma DataTargetBound(e: Env, k: nat)
    requires k < |e.asm.data| && IsReferenced(e.asm.items, e.asm.data[k].hash)
    ensures DataOffset(e, k) <= LastTarget(e)
  {
    hide SubOrder, Offset, Marker, SubCopies, DataBytes, IsReferenced, LastData;
    LastDataIsLast(e, |e.asm.data|, k);
    DataGrows(e, k, |e.asm.data|);
    DataGrows(e, k, LastData(e, |e.asm.data|) - 1);
  }

  lemma TargetBound(e: Env, operands: seq<nat>, out: Assembled, i: nat)
    requires Laid(e, operands, out) && IsReference(e, i)
    ensures |operands| == |e.asm.items| && operands[i] <= LastTarget(e)
  {
    hide Laid, LastTarget, SubOffset, DataOffset, SubOrder, TotalSize, Code, Trailer;
    var item := e.asm.items[i];
    LaidCode(e, operands, out);
    if item.PushSub? {
      LaidSubs(e, operands, out, i);
      var k :| 0 <= k < |Order(e)| && Order(e)[k] == i;
      SubTargetBound(e, k);
    } else if item.PushData? {
      if KnownData(e.asm, item.hash) {
        var k :| 0 <= k < |e.asm.data| && e.asm.data[k].hash == item.hash;
        LaidData(e, operands, out, i, k);
        assert e.asm.items[i] == PushData(e.asm.data[k].hash);
        DataTargetBound(e, k);
      } else {
        LaidUnknown(e, operands, out, i);
      }
    } else {
      LaidSize(e, operands, out, i);
      SizeIsLast(e, i);
    }
  }

  lemma LaidUnknown(e: Env, operands: seq<nat>, out: Assembled, i: nat)
    requires Laid(e, operands, out) && i < |e.asm.items| && e.asm.items[i].PushData? &&
      !KnownData(e.asm, e.asm.items[i].hash)
    ensures |operands| == |e.asm.items| && operands[i] == 0
  {
    hide Code, Trailer, Emittable, TagTable, TagTarget, SubOffset, DataOffset, KnownData;
  }

  lemma LaidSize(e: Env, operands: seq<nat>, out: Assembled, i: nat)
    requires Laid(e, operands, out) && i < |e.asm.items| && e.asm.items[i].PushProgramSize?
    ensures |operands| == |e.asm.items| && operands[i] == TotalSize(e)
  {
    hide Code, Trailer, Emittable, TagTable, TagTarget, SubOffset, DataOffset, TotalSize;
  }

  lemma SizeIsLast(e: Env, i: nat)
    requires i < |e.asm.items| && e.asm.items[i].PushProgramSize?
    ensures LastTarget(e) == TotalSize(e)
  {
    hide TotalSize, DataOffset, SubOffset, SubOrder;
  }

  /** The last target is zero or what some reference is meant to push. */
  lemma TargetIsReached(e: Env, operands: seq<nat>, out: Assembled)
    requires Laid(e, operands, out)
    ensures LastTarget(e) == 0 || SomeReferenceTo(e, operands, LastTarget(e))
  {
    hide Laid, SubOffset, DataOffset, SubOrder, TotalSize, Code, Trailer, LastData;
    LaidCode(e, operands, out);
    if PushesSize(e) {
      var i :| 0 <= i < |e.asm.items| && e.asm.items[i].PushProgramSize?;
      LaidSize(e, operands, out, i);
      assert IsReference(e, i);
    } else if LastData(e, |e.asm.data|) > 0 {
      var k := LastData(e, |e.asm.data|) - 1;
      var i :| 0 <= i < |e.asm.items| && e.asm.items[i] == PushData(e.asm.data[k].hash);
      LaidData(e, operands, out, i, k);
      assert IsReference(e, i);
    } else if Order(e) != [] {
      var k := |Order(e)| - 1;
      LaidSubs(e, operands, out, Order(e)[k]);
      assert IsReference(e, Order(e)[k]);
    }
  }

  /** All references are pushed exactly if and only if the last target fits the
      width that was chosen for them. */
  lemma PushedExactlyIfFits(e: Env, operands: seq<nat>, out: Assembled)
    requires Laid(e, operands, out)
    ensures AllPushedExactly(e, operands) <==> LastTarget(e) < Pow256(e.refWidth)
  {
    hide Laid, LastTarget, Code, Trailer, Emittable, PushedExactly, Pow256;
    LaidCode(e, operands, out);
    Pow256Positive(e.refWidth);
    if LastTarget(e) < Pow256(e.refWidth) {
      forall i: nat | IsReference(e, i) ensures PushedExactly(e, operands, i) {
        TargetBound(e, operands, out, i);
        ExactlyIfFits(e, operands, i);
      }
    }
    if AllPushedExactly(e, operands) {
      TargetIsReached(e, operands, out);
      if LastTarget(e) > 0 {
        var i: nat :| IsReference(e, i) && operands[i] == LastTarget(e);
        ExactlyIfFits(e, operands, i);
      }
    }
  }

  /** `bytes` lie at `p` of the object. */
  predicate Lies(out: Assembled, p: nat, bytes: seq<Byte>) {
    p + |bytes| <= |out.linked.bytecode| && out.linked.bytecode[p..p + |bytes|] == bytes
  }

  /** Then what a reference pushes is the place of a verbatim copy of the
      sub-assembly, the place of its data, or the final length. */
  lemma PushedReferenceIsRight(e: Env, operands: seq<nat>, out: Assembled, i: nat)
    requires Laid(e, operands, out) && IsReference(e, i) && LastTarget(e) < Pow256(e.refWidth)
    ensures PushedExactly(e, operands, i)
    ensures e.asm.items[i].PushSub? ==> Lies(out, operands[i], SubBytes(e, e.asm.items[i].id))
    ensures forall k :: 0 <= k < |e.asm.data| && e.asm.items[i] == PushData(e.asm.data[k].hash) ==>
              Lies(out, operands[i], e.asm.data[k].bytes)
    ensures e.asm.items[i].PushProgramSize? ==> operands[i] == |out.linked.bytecode|
  {
    hide Laid, LastTarget, Pow256, FinalInstrs, SubById;
    PushedExactlyIfFits(e, operands, out);
    assert PushedExactly(e, operands, i);
    if e.asm.items[i].PushSub? {
      SubReferenceIsRight(e, operands, out, i);
    }
    forall k | 0 <= k < |e.asm.data| && e.asm.items[i] == PushData(e.asm.data[k].hash)
      ensures Lies(out, operands[i], e.asm.data[k].bytes)
    {
      DataReferenceIsRight(e, operands, out, i, k);
    }
    if e.asm.items[i].PushProgramSize? {
      SizeReferenceIsRight(e, operands, out, i);
    }
  }

  // ---------------------------------------------------------------- enough room

  predicate Sorted(s: seq<nat>) {
    forall j, k :: 0 <= j < k < |s| ==> s[j] <= s[k]
  }

  lemma {:induction false} InsertionPointSplits(keys: seq<nat>, key: nat)
    requires Sorted(keys)
    ensures var p := InsertionPoint(keys, key);
            (forall j :: 0 <= j < p ==> keys[j] <= key) && (forall j :: p <= j < |keys| ==> key < keys[j])
  {
    if keys != [] && keys[0] <= key {
      InsertionPointSplits(keys[1..], key);
      var p := InsertionPoint(keys[1..], key);
      assert forall j :: 1 <= j < |keys| ==> keys[j] == keys[1..][j - 1];
    }
  }

  lemma InsertSorted(keys: seq<nat>, key: nat)
    requires Sorted(keys)
    ensures Sorted(InsertAt(keys, InsertionPoint(keys, key), key))
  {
    hide InsertionPoint;
    InsertionPointSplits(keys, key);
  }

  lemma NoneSorted()
    ensures Sorted([])
  {
  }

  lemma {:induction false} OrderSorted(items: seq<Item>, n: nat)
    requires n <= |items|
    ensures Sorted(SubIds(items, SubOrder(items, n)))
  {
    hide InsertionPoint, Sorted;
    if n == 0 {
      assert Sorted(SubIds(items, [])) by { NoneSorted(); }
    } else {
      OrderSorted(items, n - 1);
      if items[n - 1].PushSub? {
        var order, id := SubOrder(items, n - 1), items[n - 1].id;
        var ids := SubIds(items, order);
        InsertSorted(ids, id);
        assert SubIds(items, SubOrder(items, n)) == InsertAt(ids, InsertionPoint(ids, id), id);
      }
    }
  }

  /** Every PushSub names a direct sub-assembly, and no two name the same one. */
  predicate DirectSubsOnce(a: Assembly) {
    && (forall i :: 0 <= i < |a.items| && a.items[i].PushSub? ==> a.items[i].id < |a.subs|)
    && (forall i, j :: 0 <= i < j < |a.items| && a.items[i].PushSub? && a.items[j].PushSub? ==>
       a.items[i].id != a.items[j].id)
  }

  lemma {:induction false} SubSizesMonotone(subs: seq<Assembled>, j: nat, k: nat)
    requires j <= k <= |subs|
    ensures SubSizes(subs, j) <= SubSizes(subs, k)
    decreases k
  {
    if j < k {
      SubSizesMonotone(subs, j, k - 1);
    }
  }

  lemma IdsIncrease(e: Env, k: nat)
    requires DirectSubsOnce(e.asm) && |e.subs| == |e.asm.subs| && k < |Order(e)|
    ensures CopyId(e, k) < |e.subs| && (k > 0 ==> CopyId(e, k - 1) < CopyId(e, k))
  {
    hide SubOrder;
    if k > 0 {
      OrderSorted(e.asm.items, |e.asm.items|);
      SubOrderDistinct(e.asm.items, |e.asm.items|);
      var ids := SubIds(e.asm.items, Order(e));
      assert ids[k - 1] <= ids[k];
      assert Order(e)[k - 1] != Order(e)[k];
    }
  }

  /** Then the copies take no more room than all sub-assemblies together. */
  lemma {:induction false} CopiesFit(e: Env, k: nat)
    requires DirectSubsOnce(e.asm) && |e.subs| == |e.asm.subs| && k <= |Order(e)|
    ensures |SubCopies(e, k)| <= if k == 0 then 0 else SubSizes(e.subs, CopyId(e, k - 1) + 1)
    ensures k > 0 ==> CopyId(e, k - 1) < |e.subs|
  {
    if k > 0 {
      IdsIncrease(e, k - 1);
      CopiesFit(e, k - 1);
      hide SubOrder;
      if k > 1 {
        SubSizesMonotone(e.subs, CopyId(e, k - 2) + 1, CopyId(e, k - 1));
      }
    }
  }

  /** All copies together take no more room than the reservation, which counts
      each sub-assembly once. */
  predicate CopiesCounted(e: Env) {
    |AllSubCopies(e)| <= SubSizes(e.subs, |e.subs|)
  }

  lemma OnceIsCounted(e: Env)
    requires DirectSubsOnce(e.asm) && |e.subs| == |e.asm.subs|
    ensures CopiesCounted(e)
  {
    hide SubOrder, SubCopies, SubSizes, DirectSubsOnce;
    CopiesFit(e, |Order(e)|);
    if |Order(e)| > 0 {
      SubSizesMonotone(e.subs, CopyId(e, |Order(e)| - 1) + 1, |e.subs|);
    }
  }

  lemma {:induction false} DataFits(e: Env, k: nat)
    requires k <= |e.asm.data|
    ensures |DataBytes(e, k)| <= DataEstimate(e.asm.data, k)
  {
    hide IsReferenced;
    if k > 0 {
      DataFits(e, k - 1);
    }
  }

  /** Where every item is covered, the code is strictly shorter than its estimate. */
  lemma CodeShorterThanEstimate(a: Assembly, subs: seq<Assembled>, e: Env, width: nat, operands: seq<nat>,
      out: Assembled)
    requires Prepared(a, subs, e, width) && Laid(e, operands, out) && EstimateCovers(e, width)
    ensures CodeSize(e) < EstimateAt(a, e.refs, width)
  {
    hide Laid, Code, Emittable, ItemsEstimate, StartsAbove, ReadBySubs, EstimateCovers, Offset;
    LaidCode(e, operands, out);
    CodeCovered(e, width, |a.items|);
  }

  /** Under the side conditions of the estimate all references are pushed exactly. */
  lemma NothingIsCut(a: Assembly, e: Env, width: nat, operands: seq<nat>, out: Assembled, i: nat)
    requires Prepared(a, out.subs, e, width) && Laid(e, operands, out) && |out.subs| == |a.subs|
    requires EstimateCovers(e, width) && CopiesCounted(e) && IsReference(e, i)
    ensures |operands| == |e.asm.items| && |out.linked.bytecode| < Pow256(e.refWidth)
    ensures PushedExactly(e, operands, i)
  {
    hide Laid, Prepared, EstimateCovers, CopiesCounted, LastTarget, Pow256, FinalInstrs;
    RoomForAll(a, e, width, operands, out);
    TargetsInside(e, operands, out);
    PushedExactlyIfFits(e, operands, out);
    assert PushedExactly(e, operands, i);
  }

  lemma TargetsInside(e: Env, operands: seq<nat>, out: Assembled)
    requires Laid(e, operands, out)
    ensures LastTarget(e) <= |out.linked.bytecode|
  {
    hide Laid, Code, SubOrder, Offset, Marker, SubCopies, DataBytes, IsReferenced, LastData, Emittable;
    LaidCode(e, operands, out);
    if LastData(e, |e.asm.data|) > 0 {
      DataGrows(e, LastData(e, |e.asm.data|) - 1, |e.asm.data|);
    }
    if Order(e) != [] {
      CopiesGrow(e, |Order(e)| - 1, |Order(e)|);
    }
  }

  lemma RoomForAll(a: Assembly, e: Env, width: nat, operands: seq<nat>, out: Assembled)
    requires Prepared(a, out.subs, e, width) && Laid(e, operands, out) && |out.subs| == |a.subs|
    requires EstimateCovers(e, width) && CopiesCounted(e)
    ensures |out.linked.bytecode| < Pow256(e.refWidth)
  {
    hide Laid, Code, SubCopies, DataBytes, Emittable, EstimateCovers, SubOrder, ItemsEstimate, StartsAbove, ReadBySubs;
    hide Offset, SubSizes, DataEstimate;
    LaidCode(e, operands, out);
    CodeCovered(e, width, |a.items|);
    DataFits(e, |a.data|);
    var reserved := EstimateAt(a, e.refs, width) + 1 + |a.auxiliary| + SubSizes(e.subs, |e.subs|);
    assert |out.linked.bytecode| <= reserved;
    BytesRequiredExact(|out.linked.bytecode|, e.refWidth);
    BytesRequiredMonotone(|out.linked.bytecode|, reserved);
  }

  // ---------------------------------------------------------------- link references

  /** 21 zero bytes inside the code, where an address will go. */
  predicate Blank(bytes: seq<Byte>, p: nat) {
    p + 21 <= |bytes| && forall i :: p <= i < p + 21 ==> bytes[i] == 0
  }

  /** Every reference has a blank window of its own. */
  predicate Windows(links: map<nat, string>, bytes: seq<Byte>) {
    (forall p <- links :: Blank(bytes, p)) && (forall p <- links, q <- links :: p < q ==> p + 21 <= q)
  }

  lemma WindowsStay(links: map<nat, string>, bytes: seq<Byte>, more: seq<Byte>)
    requires Windows(links, bytes)
    ensures Windows(links, bytes + more)
  {
    forall p <- links ensures Blank(bytes + more, p) {
      assert Blank(bytes, p);
    }
  }

  lemma WindowsAppend(links: map<nat, string>, bytes: seq<Byte>, added: map<nat, string>, more: seq<Byte>)
    requires Windows(links, bytes) && Windows(added, more)
    ensures Windows(links + Shifted(added, |bytes|), bytes + more)
  {
    hide Blank;
    var all := links + Shifted(added, |bytes|);
    WindowsStay(links, bytes, more);
    forall p | p in Shifted(added, |bytes|) ensures p >= |bytes| && p - |bytes| in added && Blank(bytes + more, p) {
      BlankShifts(bytes, more, p - |bytes|);
    }
    forall p | p in links ensures p + 21 <= |bytes| {
      BlankEnds(bytes, p);
    }
  }

  lemma BlankShifts(bytes: seq<Byte>, more: seq<Byte>, p: nat)
    requires Blank(more, p)
    ensures Blank(bytes + more, |bytes| + p)
  {
  }

  lemma BlankEnds(bytes: seq<Byte>, p: nat)
    requires Blank(bytes, p)
    ensures p + 21 <= |bytes|
  {
  }

  /** Everywhere in the tree, each link reference has its window. */
  predicate LinksFit(out: Assembled) {
    && Windows(out.linked.linkReferences, out.linked.bytecode)
    && (forall k :: 0 <= k < |out.subs| ==> LinksFit(out.subs[k]))
  }

  lemma {:induction false} WalkFits(subs: seq<Assembled>, path: seq<nat>)
    requires path != [] && forall k :: 0 <= k < |subs| ==> LinksFit(subs[k])
    ensures Walk(subs, path).Some? ==> LinksFit(Walk(subs, path).value)
    decreases path
  {
    if path[0] < |subs| && |path| > 1 {
      WalkFits(subs[path[0]].subs, path[1..]);
    }
  }

  lemma SubByIdFits(subs: seq<Assembled>, subPaths: seq<SubPath>, id: nat)
    requires forall k :: 0 <= k < |subs| ==> LinksFit(subs[k])
    ensures var sub := SubById(subs, subPaths, id); sub.Some? ==> LinksFit(sub.value)
  {
    if id >= |subs| {
      match FindPath(subPaths, id)
      case None =>
      case Some(path) =>
        if path != [] {
          WalkFits(subs, path);
        }
    }
  }

  lemma {:induction false} OwnLinksFit(e: Env, operands: seq<nat>, n: nat)
    requires n <= |e.asm.items| == |operands|
    ensures Windows(OwnLinks(e, n), Code(e, operands, n))
  {
    hide PieceBytes, Windows, Blank, OwnLinks, Offset, Shifted;
    if n == 0 {
      NoWindows();
      NoOwnLinks(e);
    } else {
      OwnLinksFit(e, operands, n - 1);
      OwnLinkStep(e, n - 1);
      var item, piece := e.asm.items[n - 1], PieceBytes(e, n - 1, operands[n - 1]);
      if item.PushLibraryAddress? && item.hash in e.asm.libraries {
        CodeLength(e, operands, n - 1);
        LibraryPiece(e, n - 1, operands[n - 1]);
        WindowsAppend(OwnLinks(e, n - 1), Code(e, operands, n - 1), map[1 := e.asm.libraries[item.hash]], piece);
      } else {
        WindowsStay(OwnLinks(e, n - 1), Code(e, operands, n - 1), piece);
      }
    }
  }

  lemma NoOwnLinks(e: Env)
    ensures OwnLinks(e, 0) == map[]
  {
  }

  lemma OwnLinkStep(e: Env, n: nat)
    requires n < |e.asm.items|
    ensures var item, before := e.asm.items[n], OwnLinks(e, n);
            OwnLinks(e, n + 1) ==
            if item.PushLibraryAddress? && item.hash in e.asm.libraries
            then before + Shifted(map[1 := e.asm.libraries[item.hash]], Offset(e, n)) else before
  {
    hide Offset, Shifted, PieceBytes;
    var item := e.asm.items[n];
    if item.PushLibraryAddress? && item.hash in e.asm.libraries {
      ShiftedSingle(e.asm.libraries[item.hash], Offset(e, n));
      UpdateIsSum(OwnLinks(e, n), Offset(e, n) + 1, e.asm.libraries[item.hash]);
    }
  }

  lemma UpdateIsSum(links: map<nat, string>, p: nat, name: string)
    ensures links[p := name] == links + map[p := name]
  {
  }

  lemma ShiftedSingle(name: string, delta: nat)
    ensures Shifted(map[1 := name], delta) == map[delta + 1 := name]
  {
    var one: nat := 1;
    var links := map[one := name];
    assert one in links;
    assert one + delta in ShiftedKeys(links, delta);
  }

  lemma NoWindows()
    ensures Windows(map[], [])
  {
  }

  lemma LibraryPiece(e: Env, i: nat, operand: nat)
    requires i < |e.asm.items| && e.asm.items[i].PushLibraryAddress?
    ensures forall name :: Windows(map[1 := name], PieceBytes(e, i, operand))
  {
    CodeOfOne(Instr(PUSH21, 0));
    ToBigEndianZero(21);
    assert Blank(PieceBytes(e, i, operand), 1);
  }

  /** The code up to and with the first `k` copies. */
  function CodeWithCopies(e: Env, operands: seq<nat>, k: nat): seq<Byte>
    requires |e.asm.items| == |operands| && k <= |Order(e)|
  {
    Code(e, operands, |operands|) + Marker(e) + SubCopies(e, k)
  }

  lemma {:induction false} AllLinksFit(e: Env, operands: seq<nat>, k: nat)
    requires |e.asm.items| == |operands|
    requires k <= |Order(e)| && forall j :: 0 <= j < |e.subs| ==> LinksFit(e.subs[j])
    ensures Windows(AllLinks(e, k), CodeWithCopies(e, operands, k))
    ensures |CodeWithCopies(e, operands, k)| == SubOffset(e, k)
  {
    hide LinksFit, SubOrder, SubById, Offset, OwnLinks, SubLinks, SubBytes, Marker, AllLinks, SubCopies, CopyId,
        Windows, Code;
    CodeLength(e, operands, |operands|);
    if k == 0 {
      OwnLinksFit(e, operands, |e.asm.items|);
      WindowsStay(OwnLinks(e, |e.asm.items|), Code(e, operands, |operands|), Marker(e));
      NoSubCopies(e);
      assert CodeWithCopies(e, operands, 0) == Code(e, operands, |operands|) + Marker(e);
    } else {
      AllLinksFit(e, operands, k - 1);
      CopyLinksFit(e, k - 1);
      LinkStep(e, k - 1);
      WindowsAppend(AllLinks(e, k - 1), CodeWithCopies(e, operands, k - 1), SubLinks(e, CopyId(e, k - 1)),
          SubBytes(e, CopyId(e, k - 1)));
      assert CodeWithCopies(e, operands, k) == CodeWithCopies(e, operands, k - 1) + SubBytes(e, CopyId(e, k - 1));
    }
  }

  lemma CopyLinksFit(e: Env, k: nat)
    requires k < |Order(e)| && forall j :: 0 <= j < |e.subs| ==> LinksFit(e.subs[j])
    ensures Windows(SubLinks(e, CopyId(e, k)), SubBytes(e, CopyId(e, k)))
    ensures SubCopies(e, k + 1) == SubCopies(e, k) + SubBytes(e, CopyId(e, k))
  {
    hide SubOrder, Windows;
    NoWindows();
    SubByIdFits(e.subs, e.asm.subPaths, CopyId(e, k));
  }

  /** Each reference of an assembled tree has a blank window of its own ... */
  lemma {:induction false} CorrectLinksFit(a: Assembly, out: Assembled)
    requires Correct(a, out)
    ensures LinksFit(out)
    decreases a
  {
    forall k | 0 <= k < |out.subs|
      ensures LinksFit(out.subs[k])
    {
      CorrectLinksFit(a.subs[k], out.subs[k]);
    }
    hide Correct, LinksFit;
    var e, width, operands := LayoutOf(a, out);
    LaidLinks(e, operands, out);
  }

  lemma LayoutOf(a: Assembly, out: Assembled) returns (e: Env, width: nat, operands: seq<nat>)
    requires Correct(a, out)
    ensures Prepared(a, out.subs, e, width) && Laid(e, operands, out)
  {
    hide Laid;
    e, width, operands :| Prepared(a, out.subs, e, width) && Laid(e, operands, out);
  }

  lemma LaidLinks(e: Env, operands: seq<nat>, out: Assembled)
    requires Laid(e, operands, out) && forall k :: 0 <= k < |out.subs| ==> LinksFit(out.subs[k])
    ensures LinksFit(out)
  {
    hide Laid, SubOrder, AllLinks, Windows, CodeWithCopies;
    LaidParts(e, operands, out);
    AllLinksFit(e, operands, |Order(e)|);
    var rest := DataBytes(e, |e.asm.data|) + e.asm.auxiliary;
    WindowsStay(out.linked.linkReferences, CodeWithCopies(e, operands, |Order(e)|), rest);
  }

  lemma LaidParts(e: Env, operands: seq<nat>, out: Assembled)
    requires Laid(e, operands, out)
    ensures |operands| == |e.asm.items| && out.subs == e.subs && out.linked.linkReferences == AllLinks(e, |Order(e)|)
    ensures out.linked.bytecode ==
            CodeWithCopies(e, operands, |Order(e)|) + (DataBytes(e, |e.asm.data|) + e.asm.auxiliary)
  {
    hide Code, DataBytes, SubCopies, SubOrder, Emittable, TagTable, Resolved, OwnLinks, AllLinks, Marker;
    var code, marker, copies := Code(e, operands, |operands|), Marker(e), AllSubCopies(e);
    var data := DataBytes(e, |e.asm.data|);
    assert code + (marker + copies + data + e.asm.auxiliary) == code + marker + copies + (data + e.asm.auxiliary);
  }

  /** ... and each reference of a sub-assembly reappears, shifted, for every copy. */
  lemma SubLinksShifted(a: Assembly, e: Env, width: nat, operands: seq<nat>, out: Assembled, k: nat, p: nat)
    requires Correct(a, out) && Prepared(a, out.subs, e, width) && Laid(e, operands, out)
    requires k < |Order(e)| && p in SubLinks(e, CopyId(e, k))
    ensures SubOffset(e, k) + p in out.linked.linkReferences
    ensures out.linked.linkReferences[SubOffset(e, k) + p] == SubLinks(e, CopyId(e, k))[p]
  {
    forall j | 0 <= j < |out.subs|
      ensures LinksFit(out.subs[j])
    {
      CorrectLinksFit(a.subs[j], out.subs[j]);
    }
    LinkStays(e, k, p, |Order(e)|);
  }

  lemma {:induction false} LinkStays(e: Env, k: nat, p: nat, m: nat)
    requires forall j :: 0 <= j < |e.subs| ==> LinksFit(e.subs[j])
    requires k < m <= |Order(e)| && p in SubLinks(e, CopyId(e, k))
    ensures SubOffset(e, k) + p in AllLinks(e, m)
    ensures AllLinks(e, m)[SubOffset(e, k) + p] == SubLinks(e, CopyId(e, k))[p]
    decreases m
  {
    hide LinksFit, SubOrder, SubById, OwnLinks, SubLinks, SubBytes, SubCopies, AllLinks, CopyId, Marker, CodeSize;
    LinkStep(e, m - 1);
    var at, added := SubOffset(e, k) + p, Shifted(SubLinks(e, CopyId(e, m - 1)), SubOffset(e, m - 1));
    if k == m - 1 {
      assert at in ShiftedKeys(SubLinks(e, CopyId(e, k)), SubOffset(e, k));
    } else {
      LinkStays(e, k, p, m - 1);
      CopyLinksFit(e, k);
      WindowInside(SubLinks(e, CopyId(e, k)), SubBytes(e, CopyId(e, k)), p);
      CopiesGrow(e, k + 1, m - 1);
      assert at < SubOffset(e, m - 1);
      assert at !in added;
    }
  }

  lemma WindowInside(links: map<nat, string>, bytes: seq<Byte>, p: nat)
    requires Windows(links, bytes) && p in links
    ensures p + 21 <= |bytes|
  {
  }

  lemma LinkStep(e: Env, k: nat)
    requires k < |Order(e)|
    ensures AllLinks(e, k + 1) == AllLinks(e, k) + Shifted(SubLinks(e, CopyId(e, k)), SubOffset(e, k))
  {
    hide Shifted, SubOrder, SubLinks, SubOffset;
  }

  lemma {:induction false} CopiesGrow(e: Env, j: nat, k: nat)
    requires j <= k <= |Order(e)|
    ensures |SubCopies(e, j)| <= |SubCopies(e, k)|
    decreases k
  {
    hide SubOrder;
    if j < k {
      CopiesGrow(e, j, k - 1);
    }
  }
}
