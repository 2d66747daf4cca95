/**
  Growth of a device's per-key index and target buffers when a sparse data
  key needs more frames than the buffers currently hold.  A buffer is an
  n-dimensional array viewed as a sequence of rows along dimension 0; every
  row holds RowSize(rowShape) elements laid out in row-major order.
*/
module EngineUtil {

  /** An n-dimensional numeric array: its element type, the shape of its
      dimensions after the first, and its rows along the first dimension. */
  datatype Buffer = Buffer(dtype: string, rowShape: seq<nat>, rows: seq<seq<int>>)

  /** Element type the index buffers are always allocated with. */
  const IndexDType: string := "int8"
  /** Value the new tail of an index buffer is filled with. */
  const IndexFill: int := 0
  /** Value the new tail of a target buffer is filled with. */
  const TargetFill: int := -1

  /** Number of elements in one row: the product of the remaining dimensions. */
  function RowSize(rowShape: seq<nat>): (size: nat)
    decreases |rowShape|
  {
    if rowShape == [] then 1 else rowShape[0] * RowSize(rowShape[1..])
  }

  /** The full shape of a buffer: its row count, then the remaining dimensions. */
  function Shape(b: Buffer): (shape: seq<nat>)
    ensures |shape| >= 1 && shape[0] == |b.rows| && shape[1..] == b.rowShape
  {
    [|b.rows|] + b.rowShape
  }

  /** Every row has the size the remaining dimensions prescribe. */
  ghost predicate WellShaped(b: Buffer)
  {
    forall k :: 0 <= k < |b.rows| ==> |b.rows[k]| == RowSize(b.rowShape)
  }

  /** A fresh buffer of the given type and shape with every element `value`
      (numpy.zeros and numpy.full). */
  function Full(dtype: string, shape: seq<nat>, value: int): (r: Buffer)
    requires |shape| >= 1
    ensures Shape(r) == shape && r.dtype == dtype && WellShaped(r)
    ensures forall k, j :: 0 <= k < |r.rows| && 0 <= j < |r.rows[k]| ==> r.rows[k][j] == value
  {
    var rowShape := shape[1..];
    var row := seq(RowSize(rowShape), _ => value);
    Buffer(dtype, rowShape, seq(shape[0], _ => row))
  }

  /** Slice assignment dst[0:|src.rows|] = src: the leading rows of dst are
      replaced by those of src, the rest and the type of dst are kept. */
  function AssignPrefix(dst: Buffer, src: Buffer): (r: Buffer)
    requires |src.rows| <= |dst.rows|
    requires src.rowShape == dst.rowShape
    ensures r.dtype == dst.dtype && Shape(r) == Shape(dst)
    ensures r.rows[..|src.rows|] == src.rows
    ensures r.rows[|src.rows|..] == dst.rows[|src.rows|..]
  {
    dst.(rows := src.rows + dst.rows[|src.rows|..])
  }

  /** The enlarged row count: the old one plus int(1.5 * (neededLen - curLen)).
      For a non-negative difference d, int(d * 1.5) is the floor of 3*d/2. */
  function NewLen(curLen: nat, neededLen: nat): (n: nat)
    requires curLen < neededLen
    ensures neededLen <= n
    ensures 2 * (n - curLen) <= 3 * (neededLen - curLen) < 2 * (n - curLen) + 2
  {
    curLen + (neededLen - curLen) * 3 / 2
  }

  /** The buffer the enlargement leaves behind: a fresh buffer of newLen rows
      filled with `fill`, whose leading rows are overwritten by the old ones. */
  function Enlarged(prior: Buffer, newLen: nat, dtype: string, fill: int): (r: Buffer)
    requires WellShaped(prior)
    requires |prior.rows| <= newLen
    ensures WellShaped(r) && r.dtype == dtype
    ensures Shape(r) == Shape(prior)[0 := newLen]
    ensures r.rows[..|prior.rows|] == prior.rows
    ensures forall k, j :: |prior.rows| <= k < newLen && 0 <= j < |r.rows[k]| ==> r.rows[k][j] == fill
  {
    var shape := Shape(prior)[0 := newLen];
    var filled := Full(dtype, shape, fill);
    var r := AssignPrefix(filled, prior);
    assert forall k :: |prior.rows| <= k < newLen ==> r.rows[k] == filled.rows[k];
    r
  }

  /** The contract of Enlarged determines its result: any well-shaped buffer
      of that type and shape that keeps the old rows and holds `fill` in every
      later row is the enlarged buffer. */
  lemma EnlargedUnique(prior: Buffer, newLen: nat, dtype: string, fill: int, r: Buffer)
    requires WellShaped(prior) && |prior.rows| <= newLen
    requires WellShaped(r) && r.dtype == dtype && Shape(r) == Shape(prior)[0 := newLen]
    requires r.rows[..|prior.rows|] == prior.rows
    requires forall k, j :: |prior.rows| <= k < newLen && 0 <= j < |r.rows[k]| ==> r.rows[k][j] == fill
    ensures r == Enlarged(prior, newLen, dtype, fill)
  {
    var e := Enlarged(prior, newLen, dtype, fill);
    assert r.rowShape == Shape(r)[1..] == e.rowShape;
    forall k | 0 <= k < newLen
      ensures r.rows[k] == e.rows[k]
    {
      if k < |prior.rows| {
        assert r.rows[k] == r.rows[..|prior.rows|][k];
        assert e.rows[k] == e.rows[..|prior.rows|][k];
      }
    }
  }

  /** The device's per-key buffers that the enlargement replaces. */
  class Device {
    var outputIndex: map<string, Buffer>
    var targets: map<string, Buffer>

    constructor (outputIndex: map<string, Buffer>, targets: map<string, Buffer>)
      ensures this.outputIndex == outputIndex && this.targets == targets
    {
      this.outputIndex := outputIndex;
      this.targets := targets;
    }
  }

  /** Makes the buffers of `key` hold at least neededLen rows.  If they are
      long enough nothing changes; otherwise both are replaced by buffers of
      NewLen rows that keep the old rows and fill the new ones with 0 (index)
      and -1 (targets).  The target buffer of `key` is read only when growing,
      and then must have as many rows as the index buffer for the prefix copy. */
  method MaybeEnlargeData(device: Device, key: string, neededLen: nat)
    requires key in device.outputIndex && WellShaped(device.outputIndex[key])
    requires |device.outputIndex[key].rows| < neededLen ==>
               && key in device.targets
               && WellShaped(device.targets[key])
               && |device.targets[key].rows| == |device.outputIndex[key].rows|
    modifies device
    ensures var curLen := |old(device.outputIndex[key].rows)|;
            if neededLen <= curLen then
              device.outputIndex == old(device.outputIndex) && device.targets == old(device.targets)
            else
              var newLen := NewLen(curLen, neededLen);
              && device.outputIndex == old(device.outputIndex)[key := Enlarged(old(device.outputIndex[key]), newLen, IndexDType, IndexFill)]
              && device.targets == old(device.targets)[key := Enlarged(old(device.targets[key]), newLen, old(device.targets[key].dtype), TargetFill)]
    ensures device.outputIndex.Keys == old(device.outputIndex.Keys) && device.targets.Keys == old(device.targets.Keys)
    ensures forall k :: k in device.outputIndex && k != key ==> device.outputIndex[k] == old(device.outputIndex[k])
    ensures forall k :: k in device.targets && k != key ==> device.targets[k] == old(device.targets[k])
    ensures neededLen <= |device.outputIndex[key].rows|
  {
    var curLen := |device.outputIndex[key].rows|;
    if curLen >= neededLen {
      return;
    }
    var diffLen := neededLen - curLen;
    var newLen := curLen + diffLen * 3 / 2;  // the shortfall plus half of it again
    assert newLen >= neededLen;
    // The index buffer of the key: fresh int8 rows of 0, old rows copied in.
    var oldIndex := device.outputIndex[key];
    var indexShape := Shape(oldIndex)[0 := newLen];
    device.outputIndex := device.outputIndex[key := Full(IndexDType, indexShape, IndexFill)];
    device.outputIndex := device.outputIndex[key := AssignPrefix(device.outputIndex[key], oldIndex)];
    // The target buffer of the key: fresh rows of -1 keeping its element type.
    var oldTargets := device.targets[key];
    var targetsShape := Shape(oldTargets)[0 := newLen];
    device.targets := device.targets[key := Full(oldTargets.dtype, targetsShape, TargetFill)];
    device.targets := device.targets[key := AssignPrefix(device.targets[key], oldTargets)];
  }
}
