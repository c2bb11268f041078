/**
 * The concentric progress ring view: one background circle and one progress
 * arc per bar, laid out from the outside in, and the progress layers whose
 * `strokeEnd` is the drawn fraction of the ring.
 */
module ConcentricProgressRing {
  import opened Wrappers

  /** A `UIColor`; the model only stores and compares colours. */
  datatype Color = Color(id: int)

  datatype Point = Point(x: real, y: real)

  datatype Rect = Rect(origin: Point, width: real, height: real)

  /** What `addAnimation(_:forKey:)` records: a basic animation of one key path. */
  datatype Animation = Animation(keyPath: string, fromValue: real, toValue: real, duration: real)

  /** One entry of `bars`: arc colour, background colour and initial percent. */
  datatype Bar = Bar(color: Color, background: Color, percent: real)

  /** `ProgressRingLayer` proper, or its subclass `CircleLayer`. */
  datatype LayerKind = Arc | Circle

  const StrokeEndKey: string := "strokeEnd"

  /** The radius of ring `i`: rings are `margin` apart and `arcWidth` wide. */
  function RingRadius(maxRadius: real, arcWidth: real, margin: real, i: nat): (r: real)
    ensures i == 0 ==> r + arcWidth / 2.0 == maxRadius
    ensures margin + arcWidth >= 0.0 ==> r + arcWidth / 2.0 <= maxRadius
  {
    maxRadius - arcWidth / 2.0 - (i as real) * (margin + arcWidth)
  }

  /** Consecutive rings are `margin + arcWidth` apart, so radii fall with the index. */
  lemma RadiiStrictlyDecrease(maxRadius: real, arcWidth: real, margin: real, i: nat, j: nat)
    requires margin + arcWidth > 0.0
    requires i < j
    ensures RingRadius(maxRadius, arcWidth, margin, i) > RingRadius(maxRadius, arcWidth, margin, j)
    ensures RingRadius(maxRadius, arcWidth, margin, i) - RingRadius(maxRadius, arcWidth, margin, j)
            == ((j - i) as real) * (margin + arcWidth)
  {
    var d := margin + arcWidth;
    assert (j as real) * d - (i as real) * d == ((j - i) as real) * d;
    assert ((j - i) as real) * d > 0.0;
  }

  /** Width 18, margin 2 and maximum radius 80 give the radii 71, 51 and 31. */
  lemma SampleRadii()
    ensures RingRadius(80.0, 18.0, 2.0, 0) == 71.0
    ensures RingRadius(80.0, 18.0, 2.0, 1) == 51.0
    ensures RingRadius(80.0, 18.0, 2.0, 2) == 31.0
  {
  }

  class ProgressRingLayer {
    const kind: LayerKind
    const arcCenter: Point
    const radius: real
    const lineWidth: real
    const strokeColor: Color
    var strokeStart: real
    var strokeEnd: real
    /** The stored `percent` property; `nil` until it is first assigned. */
    var percent: Option<real>
    /** The layer's animations by key. */
    var animations: map<string, Animation>

    /** `ProgressRingLayer.init(arcCenter:radius:percent:lineWidth:color:)`. */
    constructor (arcCenter: Point, radius: real, percent: real, lineWidth: real, color: Color)
      ensures kind == Arc
      ensures this.arcCenter == arcCenter && this.radius == radius
      ensures this.lineWidth == lineWidth && strokeColor == color
      ensures strokeStart == 0.0 && strokeEnd == percent
      ensures this.percent == None && animations == map[]
    {
      kind := Arc;
      this.arcCenter := arcCenter;
      this.radius := radius;
      this.lineWidth := lineWidth;
      strokeColor := color;
      strokeStart := 0.0;
      strokeEnd := percent;
      this.percent := None;
      animations := map[];
    }

    /** `CircleLayer.init(center:radius:lineWidth:color:)`: a full ring, percent 1. */
    constructor Circle(center: Point, radius: real, lineWidth: real, color: Color)
      ensures kind == LayerKind.Circle
      ensures arcCenter == center && this.radius == radius
      ensures this.lineWidth == lineWidth && strokeColor == color
      ensures strokeStart == 0.0 && strokeEnd == 1.0
      ensures percent == None && animations == map[]
    {
      kind := LayerKind.Circle;
      arcCenter := center;
      this.radius := radius;
      this.lineWidth := lineWidth;
      strokeColor := color;
      strokeStart := 0.0;
      strokeEnd := 1.0;
      percent := None;
      animations := map[];
    }

    /**
     * `set(percent:duration:)`: records an animation of `strokeEnd` from its
     * current value to `percent` and moves `strokeEnd` there.
     */
    method Set(percent: real, duration: real)
      modifies this`strokeEnd, this`animations
      ensures strokeEnd == percent
      ensures animations == old(animations)[StrokeEndKey := Animation(StrokeEndKey, old(strokeEnd), percent, duration)]
      ensures strokeStart == old(strokeStart) && this.percent == old(this.percent)
    {
      var animation := Animation(StrokeEndKey, strokeEnd, percent, duration);
      strokeEnd := percent;
      animations := animations[StrokeEndKey := animation];
    }

    /** Assigning the `percent` property; its `didSet` observer animates with duration 0. */
    method SetPercent(newValue: Option<real>)
      modifies this`percent, this`strokeEnd, this`animations
      ensures percent == newValue && strokeStart == old(strokeStart)
      ensures newValue.None? ==> strokeEnd == old(strokeEnd) && animations == old(animations)
      ensures newValue.Some? ==>
                strokeEnd == newValue.value &&
                animations == old(animations)[StrokeEndKey := Animation(StrokeEndKey, old(strokeEnd), newValue.value, 0.0)]
    {
      percent := newValue;
      if newValue.Some? {
        Set(newValue.value, 0.0);
      }
    }
  }

  class ConcentricProgressRingView {
    const frame: Rect
    /** The view's `center`, where every ring is centred. */
    const center: Point
    const arcWidth: real
    const margin: real
    const maxRadius: real
    var arcs: seq<ProgressRingLayer>
    var circles: seq<ProgressRingLayer>

    /** Ring `i` is `circles[i]` behind `arcs[i]`, both at `RingRadius(…, i)`. */
    ghost predicate Valid()
      reads this
    {
      && |arcs| == |circles|
      && (forall i :: 0 <= i < |arcs| ==>
            && arcs[i].kind == Arc && circles[i].kind == LayerKind.Circle
            && arcs[i].radius == RingRadius(maxRadius, arcWidth, margin, i)
            && circles[i].radius == arcs[i].radius
            && arcs[i].lineWidth == arcWidth && circles[i].lineWidth == arcWidth
            && arcs[i].arcCenter == center && circles[i].arcCenter == center)
    }

    /** `init(arcWidth:margin:maxRadius:bars:)`. */
    constructor (arcWidth: real, margin: real, maxRadius: real, bars: seq<Bar>)
      ensures Valid()
      ensures frame == Rect(Point(0.0, 0.0), 2.0 * maxRadius, 2.0 * maxRadius)
      ensures center == Point(maxRadius, maxRadius)
      ensures this.arcWidth == arcWidth && this.margin == margin && this.maxRadius == maxRadius
      ensures |arcs| == |bars| && |circles| == |bars|
      ensures forall i :: 0 <= i < |bars| ==>
                && arcs[i].strokeColor == bars[i].color
                && arcs[i].strokeStart == 0.0 && arcs[i].strokeEnd == bars[i].percent
                && circles[i].strokeColor == bars[i].background
                && circles[i].strokeStart == 0.0 && circles[i].strokeEnd == 1.0
                && arcs[i].percent == None && circles[i].percent == None
                && arcs[i].animations == map[] && circles[i].animations == map[]
      ensures forall i :: 0 <= i < |bars| ==> fresh(arcs[i]) && fresh(circles[i])
      ensures forall i, j :: 0 <= i < |bars| && 0 <= j < |bars| ==>
                arcs[i] != circles[j] && (i != j ==> arcs[i] != arcs[j] && circles[i] != circles[j])
    {
      frame := Rect(Point(0.0, 0.0), maxRadius * 2.0, maxRadius * 2.0);
      center := Point(maxRadius, maxRadius);
      this.arcWidth := arcWidth;
      this.margin := margin;
      this.maxRadius := maxRadius;
      arcs := [];
      circles := [];
      new;
      var i := 0;
      while i < |bars|
        invariant 0 <= i <= |bars|
        invariant Valid() && |arcs| == i
        invariant forall k :: 0 <= k < i ==>
                    && arcs[k].strokeColor == bars[k].color
                    && arcs[k].strokeStart == 0.0 && arcs[k].strokeEnd == bars[k].percent
                    && circles[k].strokeColor == bars[k].background
                    && circles[k].strokeStart == 0.0 && circles[k].strokeEnd == 1.0
                    && arcs[k].percent == None && circles[k].percent == None
                    && arcs[k].animations == map[] && circles[k].animations == map[]
        invariant forall k :: 0 <= k < i ==> fresh(arcs[k]) && fresh(circles[k])
        invariant forall k, l :: 0 <= k < i && 0 <= l < i ==>
                    arcs[k] != circles[l] && (k != l ==> arcs[k] != arcs[l] && circles[k] != circles[l])
      {
        AddRing(bars[i]);
        i := i + 1;
      }
    }

    /** One pass of the loop in `init`: ring `|arcs|` is added at its radius, nothing else moves. */
    method AddRing(bar: Bar)
      modifies this
      requires Valid()
      ensures Valid()
      ensures |arcs| == |old(arcs)| + 1 && arcs[..|old(arcs)|] == old(arcs)
      ensures |circles| == |old(circles)| + 1 && circles[..|old(circles)|] == old(circles)
      ensures var arc, circle := arcs[|old(arcs)|], circles[|old(arcs)|];
                && fresh(arc) && fresh(circle) && arc != circle
                && arc.strokeColor == bar.color && arc.strokeStart == 0.0 && arc.strokeEnd == bar.percent
                && circle.strokeColor == bar.background && circle.strokeStart == 0.0 && circle.strokeEnd == 1.0
                && arc.percent == None && circle.percent == None
                && arc.animations == map[] && circle.animations == map[]
    {
      var i := |arcs|;
      var radius := RingRadius(maxRadius, arcWidth, margin, i);
      var circle := new ProgressRingLayer.Circle(center, radius, arcWidth, bar.background);
      var arc := new ProgressRingLayer(center, radius, bar.percent, arcWidth, bar.color);
      circles := circles + [circle];
      arcs := arcs + [arc];
    }

    /** `view[index]`: the progress arc of ring `index`; out of range traps. */
    function Subscript(index: int): (r: ProgressRingLayer)
      reads this
      requires Valid() && 0 <= index < |arcs|
      ensures r == arcs[index] && r.kind == Arc && r.lineWidth == arcWidth
      ensures r.radius == RingRadius(maxRadius, arcWidth, margin, index)
    {
      arcs[index]
    }
  }
}
