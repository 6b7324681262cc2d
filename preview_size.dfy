/**
 * Selection of the camera preview size (Camera::GetPreviewSize).
 *
 * The platform advertises its stream configurations as a flat list of 32-bit
 * integers, four per record: format, width, height and an input flag. The
 * selector keeps the output records in one of two accepted formats whose raw
 * width and height fit the landscape-normalised window, turns each kept record
 * to landscape, and returns the kept size closest to the window; the first of
 * equally close records wins. With nothing kept it returns (0, 0).
 *
 * The source compares `sqrt` of the squared distance in `double` precision and
 * starts from the sentinel INT_MAX. Within the dimension range required below,
 * every squared distance is an integer below 2^31, so comparing square roots
 * decides exactly as comparing the squares does, and `sqrt(d) < INT_MAX` holds
 * exactly when `d < INT_MAX * INT_MAX`. The model therefore works on squared
 * distances and uses the squared sentinel.
 */
module PreviewSize {
  import opened Wrappers

  /** Pixel formats of the platform's image header (the header itself is not part of this model). */
  const AIMAGE_FORMAT_YUV_420_888: int := 0x23
  const AIMAGE_FORMAT_JPEG: int := 0x100

  const INT_MAX: int := 0x7fff_ffff

  /** Largest window or record dimension for which the source's int32 arithmetic cannot overflow. */
  const MAX_DIMENSION: int := 0x7fff

  /** The source's starting `min_diff` of INT_MAX, on the squared scale. */
  const UNSET_DIFF_SQUARED: int := INT_MAX * INT_MAX

  datatype Size = Size(width: int, height: int)

  /** One record of the scaler's stream configuration list. A non-zero `input` marks an input stream. */
  datatype StreamConfig = StreamConfig(format: int, width: int, height: int, input: int)

  /** The flat entry list read at stride 4; a trailing partial record is not read. */
  function Records(entries: seq<int>): (recs: seq<StreamConfig>)
    ensures |recs| == |entries| / 4
    ensures forall k :: 0 <= k < |recs| ==>
      recs[k] == StreamConfig(entries[4 * k], entries[4 * k + 1], entries[4 * k + 2], entries[4 * k + 3])
  {
    seq(|entries| / 4, k requires 0 <= k < |entries| / 4 =>
      StreamConfig(entries[4 * k], entries[4 * k + 1], entries[4 * k + 2], entries[4 * k + 3]))
  }

  /** The flat layout of a record list: four entries per record, in record order. */
  function Flatten(recs: seq<StreamConfig>): (entries: seq<int>)
    ensures |entries| == 4 * |recs|
  {
    if recs == [] then []
    else [recs[0].format, recs[0].width, recs[0].height, recs[0].input] + Flatten(recs[1..])
  }

  lemma {:induction false} FlattenAt(recs: seq<StreamConfig>, k: int)
    requires 0 <= k < |recs|
    ensures Flatten(recs)[4 * k] == recs[k].format && Flatten(recs)[4 * k + 1] == recs[k].width
    ensures Flatten(recs)[4 * k + 2] == recs[k].height && Flatten(recs)[4 * k + 3] == recs[k].input
  {
    if k > 0 {
      FlattenAt(recs[1..], k - 1);
    }
  }

  /** Reading a flat layout at stride 4 gives back the records. */
  lemma RecordsOfFlatten(recs: seq<StreamConfig>)
    ensures Records(Flatten(recs)) == recs
  {
    forall k | 0 <= k < |recs|
      ensures Records(Flatten(recs))[k] == recs[k]
    {
      FlattenAt(recs, k);
    }
  }

  /** An entry list of whole records is the flat layout of what the stride-4 read yields. */
  lemma FlattenOfRecords(entries: seq<int>)
    requires |entries| % 4 == 0
    ensures Flatten(Records(entries)) == entries
  {
    var recs := Records(entries);
    forall i | 0 <= i < |entries|
      ensures Flatten(recs)[i] == entries[i]
    {
      FlattenAt(recs, i / 4);
    }
  }

  /** Width and height ordered so that width >= height, swapping only when width < height. */
  function Landscape(width: int, height: int): (s: Size)
    ensures s.width >= s.height
    ensures (s.width == width && s.height == height) || (s.width == height && s.height == width)
  {
    if width < height then Size(height, width) else Size(width, height)
  }

  function Oriented(c: StreamConfig): (s: Size)
  {
    Landscape(c.width, c.height)
  }

  /**
   * A record is a candidate: an output stream, in an accepted format, whose raw
   * size fits the window. For a landscape window its landscape size fits too.
   */
  function Qualifies(c: StreamConfig, window: Size): (b: bool)
    ensures b ==> c.input == 0
    ensures b && window.width >= window.height ==>
      Oriented(c).width <= window.width && Oriented(c).height <= window.height
  {
    && c.input == 0
    && (c.format == AIMAGE_FORMAT_YUV_420_888 || c.format == AIMAGE_FORMAT_JPEG)
    && c.width <= window.width
    && c.height <= window.height
  }

  /** Square of the Euclidean distance between two sizes. */
  function DiffSquared(window: Size, s: Size): (d: int)
    ensures d >= 0
  {
    (window.width - s.width) * (window.width - s.width) + (window.height - s.height) * (window.height - s.height)
  }

  ghost predicate DimensionsInRange(recs: seq<StreamConfig>)
  {
    forall k :: 0 <= k < |recs| ==> 0 <= recs[k].width <= MAX_DIMENSION && 0 <= recs[k].height <= MAX_DIMENSION
  }

  /**
   * Index k is the arg-min over the qualifying records: it qualifies, no
   * qualifying record is strictly closer, and every earlier qualifying record
   * is strictly farther.
   */
  ghost predicate IsBest(recs: seq<StreamConfig>, window: Size, k: int)
  {
    && 0 <= k < |recs|
    && Qualifies(recs[k], window)
    && (forall j :: 0 <= j < |recs| && Qualifies(recs[j], window) ==>
          DiffSquared(window, Oriented(recs[k])) <= DiffSquared(window, Oriented(recs[j])))
    && (forall j :: 0 <= j < k && Qualifies(recs[j], window) ==>
          DiffSquared(window, Oriented(recs[j])) > DiffSquared(window, Oriented(recs[k])))
  }

  /** The filtered arg-min: the index of the closest qualifying record, the earliest on a tie. */
  function BestIndex(recs: seq<StreamConfig>, window: Size): (r: Option<nat>)
    ensures r.None? <==> forall j :: 0 <= j < |recs| ==> !Qualifies(recs[j], window)
    ensures r.Some? ==> IsBest(recs, window, r.value)
    decreases |recs|
  {
    if |recs| == 0 then None
    else
      var prefix := recs[..|recs| - 1];
      var last := recs[|recs| - 1];
      var p := BestIndex(prefix, window);
      if !Qualifies(last, window) then p
      else if p.None? || DiffSquared(window, Oriented(last)) < DiffSquared(window, Oriented(prefix[p.value])) then
        Some(|recs| - 1)
      else p
  }

  /** The size chosen from a record list for an already normalised window. */
  function PreviewSizeOf(recs: seq<StreamConfig>, window: Size): (s: Size)
  {
    match BestIndex(recs, window)
    case None => Size(0, 0)
    case Some(k) => Oriented(recs[k])
  }

  /** What GetPreviewSize returns for the given window and entry list: always in landscape orientation. */
  function SelectPreviewSize(windowWidth: int, windowHeight: int, entries: seq<int>): (s: Size)
    ensures s.width >= s.height
  {
    PreviewSizeOf(Records(entries), Landscape(windowWidth, windowHeight))
  }

  /** The loop's locals agree with the arg-min over the records read so far. */
  ghost predicate Tracks(recs: seq<StreamConfig>, window: Size, matchWidth: int, matchHeight: int, minDiff: int)
  {
    match BestIndex(recs, window)
    case None => matchWidth == 0 && matchHeight == 0 && minDiff == UNSET_DIFF_SQUARED
    case Some(k) =>
      Size(matchWidth, matchHeight) == Oriented(recs[k]) && minDiff == DiffSquared(window, Size(matchWidth, matchHeight))
  }

  /**
   * Camera::GetPreviewSize on the stream configuration entries the platform
   * reports for the open camera.
   */
  method GetPreviewSize(windowWidth: int, windowHeight: int, entries: seq<int>)
    returns (matchWidth: int, matchHeight: int)
    requires |entries| % 4 == 0
    requires 0 <= windowWidth <= MAX_DIMENSION && 0 <= windowHeight <= MAX_DIMENSION
    requires DimensionsInRange(Records(entries))
    ensures Size(matchWidth, matchHeight) == SelectPreviewSize(windowWidth, windowHeight, entries)
  {
    var ww, wh := windowWidth, windowHeight;
    if ww < wh {
      ww, wh := wh, ww;
    }
    var minDiff := UNSET_DIFF_SQUARED;
    ghost var recs := Records(entries);
    var window := Size(ww, wh);
    RecordsLength(entries);
    matchWidth, matchHeight := 0, 0;
    var i := 0;
    ghost var n := 0;
    while i < |entries|
      invariant i == 4 * n && 0 <= n <= |recs|
      invariant Tracks(recs[..n], window, matchWidth, matchHeight, minDiff)
    {
      var format, width, height, input := entries[i], entries[i + 1], entries[i + 2], entries[i + 3];
      assert recs[n] == StreamConfig(format, width, height, input);
      ghost var (mw, mh, md) := (matchWidth, matchHeight, minDiff);
      if input == 0
        && (format == AIMAGE_FORMAT_YUV_420_888 || format == AIMAGE_FORMAT_JPEG)
        && width <= ww
        && height <= wh
      {
        if width < height {
          width, height := height, width;
        }
        DistanceFitsInt32(window, Size(width, height));
        var diff := DiffSquared(window, Size(width, height));
        if diff < minDiff {
          minDiff := diff;
          matchWidth := width;
          matchHeight := height;
        }
      }
      TracksStep(recs, window, n, mw, mh, md, matchWidth, matchHeight, minDiff);
      i, n := i + 4, n + 1;
    }
    assert recs[..n] == recs;
  }

  lemma RecordsLength(entries: seq<int>)
    requires |entries| % 4 == 0
    ensures 4 * |Records(entries)| == |entries|
  {
  }

  /** How the arg-min changes when one more record is read: the loop body's update. */
  lemma BestIndexExtend(recs: seq<StreamConfig>, window: Size, n: int)
    requires 0 <= n < |recs|
    ensures BestIndex(recs[..n + 1], window) ==
      var p := BestIndex(recs[..n], window);
      if !Qualifies(recs[n], window) then p
      else if p.None? || DiffSquared(window, Oriented(recs[n])) < DiffSquared(window, Oriented(recs[p.value])) then Some(n)
      else p
  {
    assert recs[..n + 1][..n] == recs[..n];
  }

  /** One loop iteration keeps the locals in step with the arg-min over one more record. */
  lemma TracksStep(recs: seq<StreamConfig>, window: Size, n: int, mw: int, mh: int, minDiff: int,
                   mw': int, mh': int, minDiff': int)
    requires 0 <= n < |recs| && DimensionsInRange(recs)
    requires 0 <= window.height <= window.width <= MAX_DIMENSION
    requires Tracks(recs[..n], window, mw, mh, minDiff)
    requires if Qualifies(recs[n], window) && DiffSquared(window, Oriented(recs[n])) < minDiff
             then Size(mw', mh') == Oriented(recs[n]) && minDiff' == DiffSquared(window, Oriented(recs[n]))
             else mw' == mw && mh' == mh && minDiff' == minDiff
    ensures Tracks(recs[..n + 1], window, mw', mh', minDiff')
  {
    BestIndexExtend(recs, window, n);
    if Qualifies(recs[n], window) {
      DistanceFitsInt32(window, Oriented(recs[n]));
    }
  }

  /**
   * Within the dimension bound, the squared distance of a fitting size stays
   * below INT_MAX: the int32 products and sum do not overflow, and every real
   * distance beats the INT_MAX sentinel.
   */
  lemma DistanceFitsInt32(window: Size, s: Size)
    requires 0 <= s.width <= window.width <= MAX_DIMENSION
    requires 0 <= s.height <= window.height <= MAX_DIMENSION
    ensures DiffSquared(window, s) < INT_MAX
    ensures DiffSquared(window, s) < UNSET_DIFF_SQUARED
  {
    var dw, dh := window.width - s.width, window.height - s.height;
    SquareBound(dw);
    SquareBound(dh);
  }

  lemma SquareBound(x: int)
    requires 0 <= x <= MAX_DIMENSION
    ensures x * x <= MAX_DIMENSION * MAX_DIMENSION
  {
    MulMonotone(x, x, MAX_DIMENSION);
    MulMonotone(MAX_DIMENSION, x, MAX_DIMENSION);
  }

  /** a * b <= a * c for a >= 0 and b <= c, by induction on a. */
  lemma {:induction false} MulMonotone(a: nat, b: int, c: int)
    requires b <= c
    ensures a * b <= a * c
  {
    if a > 0 {
      MulMonotone(a - 1, b, c);
      assert a * b == (a - 1) * b + b;
      assert a * c == (a - 1) * c + c;
    }
  }

  /** With no qualifying record (empty list, inputs only, other formats, or all too large) the result is (0, 0). */
  lemma NothingQualifiesGivesZero(windowWidth: int, windowHeight: int, entries: seq<int>)
    requires forall k :: 0 <= k < |Records(entries)| ==> !Qualifies(Records(entries)[k], Landscape(windowWidth, windowHeight))
    ensures SelectPreviewSize(windowWidth, windowHeight, entries) == Size(0, 0)
  {
  }

  /** Swapping the two window arguments does not change the result. */
  lemma WindowOrientationIrrelevant(windowWidth: int, windowHeight: int, entries: seq<int>)
    ensures SelectPreviewSize(windowWidth, windowHeight, entries) == SelectPreviewSize(windowHeight, windowWidth, entries)
  {
  }

  /**
   * A result other than (0, 0) is the landscape size of some output record in
   * an accepted format whose raw size fits the normalised window.
   */
  lemma ResultComesFromQualifyingRecord(windowWidth: int, windowHeight: int, entries: seq<int>)
    ensures var r := SelectPreviewSize(windowWidth, windowHeight, entries);
            var recs := Records(entries);
            var window := Landscape(windowWidth, windowHeight);
            r != Size(0, 0) ==>
              exists k :: 0 <= k < |recs| && recs[k].input == 0
                && (recs[k].format == AIMAGE_FORMAT_YUV_420_888 || recs[k].format == AIMAGE_FORMAT_JPEG)
                && recs[k].width <= window.width && recs[k].height <= window.height
                && r == Landscape(recs[k].width, recs[k].height)
  {
  }

  /** The result fits the normalised window and is in landscape orientation. */
  lemma ResultFitsWindow(windowWidth: int, windowHeight: int, entries: seq<int>)
    requires 0 <= windowWidth && 0 <= windowHeight
    ensures var r := SelectPreviewSize(windowWidth, windowHeight, entries);
            var window := Landscape(windowWidth, windowHeight);
            r.width <= window.width && r.height <= window.height && r.width >= r.height
  {
  }

  /**
   * When some record qualifies, the result is the landscape size of record k,
   * which is at least as close to the window as every qualifying record and
   * strictly closer than every qualifying record before it.
   */
  lemma ResultIsEarliestClosest(windowWidth: int, windowHeight: int, entries: seq<int>, j: int)
    requires 0 <= j < |Records(entries)| && Qualifies(Records(entries)[j], Landscape(windowWidth, windowHeight))
    ensures var recs := Records(entries);
            var window := Landscape(windowWidth, windowHeight);
            exists k :: IsBest(recs, window, k) && SelectPreviewSize(windowWidth, windowHeight, entries) == Oriented(recs[k])
  {
    var recs, window := Records(entries), Landscape(windowWidth, windowHeight);
    var k := BestIndex(recs, window).value;
    assert IsBest(recs, window, k);
  }

  /** The arg-min is unique, so the two properties of IsBest determine the result. */
  lemma BestIsUnique(recs: seq<StreamConfig>, window: Size, k1: int, k2: int)
    requires IsBest(recs, window, k1) && IsBest(recs, window, k2)
    ensures k1 == k2
  {
  }

  /** A qualifying record whose landscape size equals the window is an exact match and is what is returned. */
  lemma ExactMatchIsChosen(windowWidth: int, windowHeight: int, entries: seq<int>, j: int)
    requires 0 <= j < |Records(entries)|
    requires Qualifies(Records(entries)[j], Landscape(windowWidth, windowHeight))
    requires Oriented(Records(entries)[j]) == Landscape(windowWidth, windowHeight)
    ensures SelectPreviewSize(windowWidth, windowHeight, entries) == Landscape(windowWidth, windowHeight)
  {
    var recs, window := Records(entries), Landscape(windowWidth, windowHeight);
    var k := BestIndex(recs, window).value;
    assert DiffSquared(window, Oriented(recs[k])) <= DiffSquared(window, Oriented(recs[j])) == 0;
    ZeroDistanceIsEqual(window, Oriented(recs[k]));
  }

  lemma ZeroDistanceIsEqual(a: Size, b: Size)
    requires DiffSquared(a, b) == 0
    ensures a == b
  {
    var dw, dh := a.width - b.width, a.height - b.height;
    assert dw * dw >= 0 && dh * dh >= 0;
  }

  /**
   * The fit test uses the record's raw orientation: a portrait record is
   * rejected by a landscape window even when its landscape size matches exactly.
   */
  lemma PortraitRecordIsRejected()
    ensures !Qualifies(StreamConfig(AIMAGE_FORMAT_YUV_420_888, 1080, 1920, 0), Landscape(1920, 1080))
    ensures Oriented(StreamConfig(AIMAGE_FORMAT_YUV_420_888, 1080, 1920, 0)) == Landscape(1920, 1080)
    ensures SelectPreviewSize(1920, 1080, [AIMAGE_FORMAT_YUV_420_888, 1080, 1920, 0]) == Size(0, 0)
  {
    var entries := [AIMAGE_FORMAT_YUV_420_888, 1080, 1920, 0];
    assert Records(entries) == [StreamConfig(AIMAGE_FORMAT_YUV_420_888, 1080, 1920, 0)];
  }

  /** A portrait window with an exact landscape match, a smaller size and an oversized JPEG size. */
  lemma ExactMatchExample()
    ensures SelectPreviewSize(1080, 1920,
      [AIMAGE_FORMAT_YUV_420_888, 1920, 1080, 0,
       AIMAGE_FORMAT_YUV_420_888, 640, 480, 0,
       AIMAGE_FORMAT_JPEG, 3000, 2000, 0]) == Size(1920, 1080)
  {
    var entries := [AIMAGE_FORMAT_YUV_420_888, 1920, 1080, 0,
                    AIMAGE_FORMAT_YUV_420_888, 640, 480, 0,
                    AIMAGE_FORMAT_JPEG, 3000, 2000, 0];
    ExactMatchIsChosen(1080, 1920, entries, 0);
  }

  /** Two fitting sizes for an 800x600 window: 720x480 (squared distance 20800) beats 640x480 (40000). */
  lemma ClosestSizeExample()
    ensures SelectPreviewSize(800, 600,
      [AIMAGE_FORMAT_YUV_420_888, 640, 480, 0,
       AIMAGE_FORMAT_YUV_420_888, 720, 480, 0]) == Size(720, 480)
  {
    var entries := [AIMAGE_FORMAT_YUV_420_888, 640, 480, 0,
                    AIMAGE_FORMAT_YUV_420_888, 720, 480, 0];
    var recs := Records(entries);
    assert recs == [StreamConfig(AIMAGE_FORMAT_YUV_420_888, 640, 480, 0),
                    StreamConfig(AIMAGE_FORMAT_YUV_420_888, 720, 480, 0)];
    assert recs[..1] == [recs[0]];
    assert [recs[0]][..0] == [];
  }
}
