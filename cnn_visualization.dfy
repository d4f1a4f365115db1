/** The network diagram of the demo page: the activation images of each
    convolution layer, how they are laid out, which output digit lights up
    and when the image URLs are refreshed. */
module CnnVisualization {
  import opened Wrappers
  import opened Text

  /** One activation image of a convolution layer. */
  datatype LayerImage = LayerImage(src: string, alt: string)

  const OutputsDir: string := "/cnn/outputs/"
  const ChannelTag: string := "-channel_"
  const QueryTag: string := ".png?t="

  /** `/cnn/outputs/{layer}-channel_{i}.png?t={timestamp}`. */
  function ImageSrc(layer: nat, i: nat, timestamp: nat): (src: string)
    ensures |src| > |OutputsDir| + |DecimalString(timestamp)|
    ensures src[..|OutputsDir|] == OutputsDir
    ensures src[|src| - |DecimalString(timestamp)|..] == DecimalString(timestamp)
  {
    OutputsDir + (DecimalString(layer) + (ChannelTag + (DecimalString(i) + (QueryTag + DecimalString(timestamp)))))
  }

  /** `L{layer} F{i}`. */
  function ImageAlt(layer: nat, i: nat): (alt: string)
    ensures |alt| == 3 + |DecimalString(layer)| + |DecimalString(i)| && alt[0] == 'L'
    ensures alt[|alt| - |DecimalString(i)| - 2..] == " F" + DecimalString(i)
  {
    "L" + DecimalString(layer) + " F" + DecimalString(i)
  }

  /** `getImagesForLayer`: one image per filter, in filter order. */
  function ImagesForLayer(layer: nat, filterCount: nat, timestamp: nat): (imgs: seq<LayerImage>)
    ensures |imgs| == filterCount
    ensures forall i :: 0 <= i < filterCount ==>
      imgs[i] == LayerImage(ImageSrc(layer, i, timestamp), ImageAlt(layer, i))
  {
    seq(filterCount, i requires 0 <= i < filterCount =>
      LayerImage(ImageSrc(layer, i, timestamp), ImageAlt(layer, i)))
  }

  /** Two images of the same render share a file only when they are the
      same filter of the same layer: no two cells of the diagram, in one
      layer or across layers, show the same file. */
  lemma ImageSourcesDistinct(l1: nat, i1: nat, l2: nat, i2: nat, timestamp: nat)
    requires ImageSrc(l1, i1, timestamp) == ImageSrc(l2, i2, timestamp)
    ensures l1 == l2 && i1 == i2
  {
    var d1, d2 := DecimalString(l1), DecimalString(l2);
    var r1 := ChannelTag + (DecimalString(i1) + (QueryTag + DecimalString(timestamp)));
    var r2 := ChannelTag + (DecimalString(i2) + (QueryTag + DecimalString(timestamp)));
    var t1, t2 := d1 + r1, d2 + r2;
    assert t1 == ImageSrc(l1, i1, timestamp)[|OutputsDir|..];
    assert t2 == ImageSrc(l2, i2, timestamp)[|OutputsDir|..];
    assert r1[0] == '-' && r2[0] == '-';
    DigitsPrefixUnique(d1, r1, d2, r2);
    DecimalInjective(l1, l2);
    var q := QueryTag + DecimalString(timestamp);
    assert DecimalString(i1) + q == r1[|ChannelTag|..];
    assert DecimalString(i2) + q == r2[|ChannelTag|..];
    assert q[0] == '.';
    DigitsPrefixUnique(DecimalString(i1), q, DecimalString(i2), q);
    DecimalInjective(i1, i2);
  }

  /** The images of one layer all show different files. */
  lemma LayerImagesDistinct(layer: nat, filterCount: nat, timestamp: nat, i: nat, j: nat)
    requires i < j < filterCount
    ensures ImagesForLayer(layer, filterCount, timestamp)[i].src
         != ImagesForLayer(layer, filterCount, timestamp)[j].src
  {
    if ImageSrc(layer, i, timestamp) == ImageSrc(layer, j, timestamp) {
      ImageSourcesDistinct(layer, i, layer, j, timestamp);
    }
  }

  /** The least `c` from `from` on with `c * c >= n`. */
  function CeilSqrtFrom(n: nat, from: nat): (c: nat)
    requires from == 0 || (from - 1) * (from - 1) < n
    ensures c * c >= n && (c == 0 || (c - 1) * (c - 1) < n)
    decreases n - from
  {
    if from * from >= n then from
    else CeilSqrtFrom(n, from + 1)
  }

  /** Squares grow with their roots: a smaller square has a smaller root. */
  lemma SquareStrict(a: nat, b: nat)
    requires a * a < b * b
    ensures a < b
  {
  }

  /** `Math.ceil(Math.sqrt(n))` for a whole number `n`: the least `c` with
      `c * c >= n`. */
  function CeilSqrt(n: nat): (c: nat)
    ensures c * c >= n
    ensures forall d: nat :: d * d >= n ==> c <= d
  {
    var c := CeilSqrtFrom(n, 0);
    assert forall d: nat :: d * d >= n ==> c <= d by {
      forall d: nat | d * d >= n
        ensures c <= d
      {
        if c > 0 {
          SquareStrict(c - 1, d);
        }
      }
    }
    c
  }

  /** The number of columns of a layer's grid: 4 for the second layer,
      otherwise the rounded-up square root of the filter count, where a
      missing or zero count counts as 0. */
  function GridColumns(idx: nat, filters: Option<nat>): (cols: nat)
    ensures idx == 1 ==> cols == 4
    ensures idx != 1 ==> cols * cols >= filters.GetOr(0)
    ensures idx != 1 ==> forall d: nat :: d * d >= filters.GetOr(0) ==> cols <= d
  {
    if idx == 1 then 4 else CeilSqrt(filters.GetOr(0))
  }

  /** Outside the second layer the grid is the smallest square holding all
      the images: its rows, as many as the columns, are enough, and one
      column fewer would not be. */
  lemma GridIsSmallestSquare(idx: nat, filters: Option<nat>)
    requires idx != 1
    ensures var c := GridColumns(idx, filters); var n := filters.GetOr(0);
      c * c >= n && (c == 0 || (c - 1) * (c - 1) < n)
  {
    var c := GridColumns(idx, filters);
    if c > 0 {
      assert (c - 1) * (c - 1) < filters.GetOr(0) by {
        var d: nat := c - 1;
        if d * d >= filters.GetOr(0) {
          assert false;
        }
      }
    }
  }

  /** Output digit `i` is highlighted when the prediction is its decimal
      string. */
  predicate Highlighted(prediction: Option<string>, i: nat)
    ensures Highlighted(prediction, i) ==> prediction.Some? && AllDigits(prediction.value)
  {
    prediction == Some(DecimalString(i))
  }

  /** At most one of the ten output digits is highlighted, and a one-digit
      prediction highlights exactly its own digit. */
  lemma OneDigitHighlighted(prediction: Option<string>, i: nat, j: nat)
    requires i < 10 && j < 10
    ensures Highlighted(prediction, i) && Highlighted(prediction, j) ==> i == j
    ensures prediction.Some? && |prediction.value| == 1 && IsDigit(prediction.value[0]) ==>
      (Highlighted(prediction, i) <==> i == DigitValue(prediction.value[0]))
  {
    if Highlighted(prediction, i) && Highlighted(prediction, j) {
      DecimalInjective(i, j);
    }
    if prediction.Some? && |prediction.value| == 1 && IsDigit(prediction.value[0]) {
      var d := DigitValue(prediction.value[0]);
      assert DecimalString(d) == prediction.value;
      if Highlighted(prediction, i) {
        DecimalInjective(i, d);
      }
    }
  }

  /** The effect on `lastPredictionTime`: a new time that is truthy (neither
      null nor 0) refreshes the timestamp, which busts the image cache. */
  function RefreshTimestamp(timestamp: nat, lastPredictionTime: Option<int>, now: nat): (t: nat)
    ensures lastPredictionTime.Some? && lastPredictionTime.value != 0 ==> t == now
    ensures lastPredictionTime.None? || lastPredictionTime.value == 0 ==> t == timestamp
  {
    if lastPredictionTime.Some? && lastPredictionTime.value != 0 then now else timestamp
  }

  /** One piece of the row of convolution layers. */
  datatype Piece = Conv(idx: nat) | Connector

  /** The layers from `idx` on, each followed by a connector unless it is
      the last one. */
  function ConvRowFrom(count: nat, idx: nat): (row: seq<Piece>)
    requires idx <= count
    ensures |row| == if idx == count then 0 else 2 * (count - idx) - 1
    ensures forall k :: 0 <= k < |row| ==>
      row[k] == if k % 2 == 0 then Conv(idx + k / 2) else Connector
    decreases count - idx
  {
    if idx == count then []
    else
      var rest := ConvRowFrom(count, idx + 1);
      var head := if idx < count - 1 then [Conv(idx), Connector] else [Conv(idx)];
      assert forall k :: 0 <= k < |rest| ==> (head + rest)[k + 2] == rest[k];
      head + rest
  }

  /** The row of convolution layers: the layers in order with a connector
      between each two neighbours and none after the last. */
  function ConvRow(count: nat): (row: seq<Piece>)
    ensures |row| == if count == 0 then 0 else 2 * count - 1
    ensures row != [] ==> row[0] == Conv(0) && row[|row| - 1] == Conv(count - 1)
  {
    ConvRowFrom(count, 0)
  }

  /** Every connector sits between two consecutive layers, and there is
      one fewer connector than layers. */
  lemma ConnectorsBetweenNeighbours(count: nat, k: nat)
    requires k < |ConvRow(count)| && ConvRow(count)[k] == Connector
    ensures 0 < k < |ConvRow(count)| - 1
    ensures ConvRow(count)[k - 1] == Conv((k - 1) / 2) && ConvRow(count)[k + 1] == Conv((k + 1) / 2)
    ensures (k + 1) / 2 == (k - 1) / 2 + 1
  {
  }
}
