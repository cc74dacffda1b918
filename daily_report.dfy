/**
 * The arithmetic inside the company shipment screenshots of the daily report:
 * which slices of a report are captured for the current month, in which order
 * they are stacked, and where each image lands on the merged canvas. The
 * browser, the image files and the mail delivery around this arithmetic are
 * not modelled; the current month and the image sizes are parameters.
 */
module DailyReport {
  import opened Wrappers

  /** One captured piece of a company shipment report. */
  datatype Slice = Header | Delay | Tail | Month(month: int)

  /**
   * What is captured for the current month: the header and the delayed
   * shipments always, the tail when the report has one, the current month
   * and up to two following months of the same year, and months 1 and 2 of
   * the next year from November on.
   */
  predicate Captured(current: int, hasTail: bool, s: Slice)
  {
    match s
    case Header => true
    case Delay => true
    case Tail => hasTail
    case Month(m) => (current <= m <= current + 2 && m <= 12) || (current > 10 && 1 <= m <= 2)
  }

  /** The number of in-year months captured: current month through min(current + 2, 12). */
  function InYearCount(current: int): int
  {
    (if current + 2 < 12 then current + 2 else 12) - current + 1
  }

  /**
   * The capture loops of the company shipment report, in the order the
   * screenshots are taken: header, delayed shipments, the tail if any, the
   * in-year months in ascending order, then next year's months 1 and 2 when
   * the current month is past October. Every slice is captured once.
   */
  method CaptureSlices(current: int, hasTail: bool) returns (captured: seq<Slice>)
    requires 1 <= current <= 12
    ensures var base := if hasTail then 3 else 2;
              && |captured| == base + InYearCount(current) + (if current > 10 then 2 else 0)
              && captured[0] == Header && captured[1] == Delay
              && (hasTail ==> captured[2] == Tail)
              && (forall p :: base <= p < base + InYearCount(current) ==> captured[p] == Month(current + p - base))
              && (current > 10 ==> captured[|captured| - 2..] == [Month(1), Month(2)])
    ensures forall s :: s in captured <==> Captured(current, hasTail, s)
    ensures forall i, j :: 0 <= i < j < |captured| ==> captured[i] != captured[j]
  {
    captured := [Header, Delay];
    if hasTail {
      captured := captured + [Tail];
    }
    ghost var base := |captured|;
    var stop := if current + 3 < 13 then current + 3 else 13;
    var i := current;
    while i < stop
      invariant current <= i <= stop
      invariant |captured| == base + (i - current)
      invariant captured[0] == Header && captured[1] == Delay && (hasTail ==> captured[2] == Tail)
      invariant forall p :: base <= p < |captured| ==> captured[p] == Month(current + p - base)
    {
      captured := captured + [Month(i)];
      i := i + 1;
    }
    ghost var inYear := |captured|;
    assert inYear == base + InYearCount(current);
    if current > 10 {
      var j := 1;
      while j < 3
        invariant 1 <= j <= 3
        invariant |captured| == inYear + (j - 1)
        invariant captured[0] == Header && captured[1] == Delay && (hasTail ==> captured[2] == Tail)
        invariant forall p :: base <= p < inYear ==> captured[p] == Month(current + p - base)
        invariant forall p :: inYear <= p < |captured| ==> captured[p] == Month(p - inYear + 1)
      {
        captured := captured + [Month(j)];
        j := j + 1;
      }
    }
    assert forall k :: base <= k < |captured| ==> captured[k].Month?;
    forall s | Captured(current, hasTail, s)
      ensures s in captured
    {
      if s.Month? {
        if current <= s.month <= current + 2 && s.month <= 12 {
          assert captured[base + (s.month - current)] == s;
        } else {
          assert captured[inYear + (s.month - 1)] == s;
        }
      } else if s == Tail {
        assert captured[2] == s;
      } else if s == Header {
        assert captured[0] == s;
      } else {
        assert captured[1] == s;
      }
    }
  }

  /**
   * The months stacked into the merged image, latest first: the current
   * month and the two after it, counted across the year end.
   */
  function MergeMonths(current: int): (months: seq<int>)
    requires 1 <= current <= 12
    ensures |months| == 3
    ensures forall k :: 0 <= k < 3 ==> months[k] == (current + 1 - k) % 12 + 1
    ensures forall k :: 0 <= k < 3 ==> 1 <= months[k] <= 12 && Captured(current, false, Month(months[k]))
    ensures months[0] != months[1] && months[1] != months[2] && months[0] != months[2]
  {
    if current < 11 then [current + 2, current + 1, current]
    else if current == 11 then [1, 12, 11]
    else [2, 1, 12]
  }

  /**
   * The list of slices to merge: header, delayed shipments, the tail when the
   * report has one, then the three merge months. Every slice in it was
   * captured before.
   */
  method MergeOrder(current: int, hasTail: bool) returns (order: seq<Slice>)
    requires 1 <= current <= 12
    ensures |order| == 5 + (if hasTail then 1 else 0)
    ensures order[0] == Header && order[1] == Delay && (hasTail ==> order[2] == Tail)
    ensures forall k :: 0 <= k < 3 ==> order[|order| - 3 + k] == Month(MergeMonths(current)[k])
    ensures forall s :: s in order ==> Captured(current, hasTail, s)
    ensures Tail in order <==> hasTail
  {
    order := [Header, Delay];
    if hasTail {
      order := order + [Tail];
    }
    var months := MergeMonths(current);
    order := order + seq(3, k requires 0 <= k < 3 => Month(months[k]));
  }

  /** The width and height of an image, in pixels. */
  datatype Size = Size(width: nat, height: nat)

  /** The top-left corner at which an image is pasted. */
  datatype Placement = Placement(x: int, y: int)

  /** The merged canvas and where each input image is pasted on it, in input order. */
  datatype Canvas = Canvas(width: nat, height: nat, placements: seq<Placement>)

  /** `max` of an empty list raises. */
  datatype MergeError = EmptyImageList

  /** The widest image's width. */
  function MaxWidth(sizes: seq<Size>): (w: nat)
    requires |sizes| > 0
    ensures forall k :: 0 <= k < |sizes| ==> sizes[k].width <= w
    ensures exists k :: 0 <= k < |sizes| && sizes[k].width == w
  {
    if |sizes| == 1 then sizes[0].width
    else
      var rest := MaxWidth(sizes[1..]);
      assert forall k :: 1 <= k < |sizes| ==> sizes[k] == sizes[1..][k - 1];
      if sizes[0].width >= rest then sizes[0].width else rest
  }

  /** The heights of the first `k` images added up: the top of image `k` on the stacked canvas. */
  function HeightAbove(sizes: seq<Size>, k: nat): (h: nat)
    requires k <= |sizes|
    ensures k > 0 ==> sizes[k - 1].height <= h
  {
    if k == 0 then 0 else HeightAbove(sizes, k - 1) + sizes[k - 1].height
  }

  /** Every image above position `k` fits within its offset, which is zero exactly when all of them are flat. */
  lemma {:induction false} HeightAboveBounds(sizes: seq<Size>, k: nat)
    requires k <= |sizes|
    ensures forall j :: 0 <= j < k ==> sizes[j].height <= HeightAbove(sizes, k)
    ensures HeightAbove(sizes, k) == 0 <==> forall j :: 0 <= j < k ==> sizes[j].height == 0
  {
    if k > 0 {
      HeightAboveBounds(sizes, k - 1);
    }
  }

  /** The heights of all the images added up. */
  function TotalHeight(sizes: seq<Size>): (h: nat)
    ensures forall j :: 0 <= j < |sizes| ==> sizes[j].height <= h
    ensures h == 0 <==> forall j :: 0 <= j < |sizes| ==> sizes[j].height == 0
  {
    HeightAboveBounds(sizes, |sizes|);
    HeightAbove(sizes, |sizes|)
  }

  /** Each image's band [top, top + height) ends no lower than where any later image's band begins. */
  lemma {:induction false} BandsInOrder(sizes: seq<Size>, i: nat, j: nat)
    requires i < j <= |sizes|
    ensures HeightAbove(sizes, i) + sizes[i].height <= HeightAbove(sizes, j)
    decreases j - i
  {
    if j > i + 1 {
      BandsInOrder(sizes, i, j - 1);
    }
  }

  /**
   * Where each image is pasted on a canvas of the given width: centred
   * horizontally, and directly below all the images before it.
   */
  function Placements(sizes: seq<Size>, width: int): (ps: seq<Placement>)
    ensures |ps| == |sizes|
    ensures forall k :: 0 <= k < |sizes| ==> ps[k].y + sizes[k].height == HeightAbove(sizes, k + 1)
  {
    seq(|sizes|, k requires 0 <= k < |sizes| =>
      Placement((width - sizes[k].width) / 2, HeightAbove(sizes, k)))
  }

  lemma PlacementsAgree(sizes: seq<Size>, width: int, ps: seq<Placement>)
    requires |ps| == |sizes|
    requires forall k :: 0 <= k < |sizes| ==>
               ps[k] == Placement((width - sizes[k].width) / 2, HeightAbove(sizes, k))
    ensures ps == Placements(sizes, width)
  {
    var spec := Placements(sizes, width);
    assert forall k :: 0 <= k < |sizes| ==> ps[k] == spec[k];
  }

  lemma PlacementAt(sizes: seq<Size>, width: int, k: nat)
    requires k < |sizes|
    ensures Placements(sizes, width)[k] == Placement((width - sizes[k].width) / 2, HeightAbove(sizes, k))
  {
  }

  /** Pasting the next image keeps the pasted positions those of `Placements`. */
  lemma PasteNext(sizes: seq<Size>, width: int, ps: seq<Placement>)
    requires |ps| < |sizes|
    requires forall k :: 0 <= k < |ps| ==>
               ps[k] == Placement((width - sizes[k].width) / 2, HeightAbove(sizes, k))
    ensures var next := ps + [Placement((width - sizes[|ps|].width) / 2, HeightAbove(sizes, |ps|))];
              forall k :: 0 <= k < |next| ==>
                next[k] == Placement((width - sizes[k].width) / 2, HeightAbove(sizes, k))
  {
    var next := ps + [Placement((width - sizes[|ps|].width) / 2, HeightAbove(sizes, |ps|))];
    forall k | 0 <= k < |next|
      ensures next[k] == Placement((width - sizes[k].width) / 2, HeightAbove(sizes, k))
    {
      if k < |ps| {
        assert next[k] == ps[k];
      }
    }
  }

  /**
   * On a canvas as wide as the widest image and as tall as all heights
   * together, the placements fit each image horizontally, stack the images
   * top to bottom without gaps or overlaps, and end at the canvas bottom.
   */
  lemma StackedLayout(sizes: seq<Size>)
    requires |sizes| > 0
    ensures var w := MaxWidth(sizes);
            var ps := Placements(sizes, w);
              && (forall k :: 0 <= k < |sizes| ==> 0 <= ps[k].x <= w - sizes[k].width)
              && ps[0].y == 0
              && (forall k :: 0 <= k < |sizes| - 1 ==> ps[k + 1].y == ps[k].y + sizes[k].height)
              && (forall i, j :: 0 <= i < j < |sizes| ==> ps[i].y + sizes[i].height <= ps[j].y)
              && ps[|sizes| - 1].y + sizes[|sizes| - 1].height == TotalHeight(sizes)
  {
    var w := MaxWidth(sizes);
    var ps := Placements(sizes, w);
    forall k | 0 <= k < |sizes|
      ensures 0 <= ps[k].x <= w - sizes[k].width && ps[k].y == HeightAbove(sizes, k)
    {
      PlacementAt(sizes, w, k);
    }
    forall a, b | 0 <= a < b < |sizes|
      ensures ps[a].y + sizes[a].height <= ps[b].y
    {
      BandsInOrder(sizes, a, b);
    }
  }

  /**
   * The merge of the screenshots: fails on an empty list as `max` does,
   * otherwise sizes the canvas from the widest image and the sum of the
   * heights and pastes the images one below the other, each centred.
   */
  method MergeImages(sizes: seq<Size>) returns (r: Result<Canvas, MergeError>)
    ensures r.Failure? <==> sizes == []
    ensures r.Success? ==>
              && (forall k :: 0 <= k < |sizes| ==> sizes[k].width <= r.value.width)
              && (exists k :: 0 <= k < |sizes| && sizes[k].width == r.value.width)
              && r.value.height == TotalHeight(sizes)
              && r.value.placements == Placements(sizes, r.value.width)
  {
    if sizes == [] {
      return Failure(EmptyImageList);
    }
    var maxWidth := MaxWidth(sizes);
    var totalHeight := TotalHeight(sizes);
    var placements: seq<Placement> := [];
    var yOffset := 0;
    var i := 0;
    while i < |sizes|
      invariant 0 <= i <= |sizes|
      invariant yOffset == HeightAbove(sizes, i)
      invariant |placements| == i
      invariant forall k :: 0 <= k < i ==>
                  placements[k] == Placement((maxWidth - sizes[k].width) / 2, HeightAbove(sizes, k))
    {
      PasteNext(sizes, maxWidth, placements);
      placements := placements + [Placement((maxWidth - sizes[i].width) / 2, yOffset)];
      yOffset := yOffset + sizes[i].height;
      i := i + 1;
    }
    PlacementsAgree(sizes, maxWidth, placements);
    r := Success(Canvas(maxWidth, totalHeight, placements));
  }
}
