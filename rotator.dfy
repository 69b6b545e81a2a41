/** The rotator widget (rotator.js): per-frame image records that become
    ready once loaded, and the coordinator that turns drag notifications into
    the frame shown in its image element. */
module Rotator {
  import opened Wrappers
  import opened Rotation
  import opened DragInput

  /** `RT.image`: one frame's URL and whether its image has loaded.  The
      network fetch is not modelled; its completion is the explicit
      `MarkLoaded` step. */
  class FrameImage {
    const url: string
    var ready: bool

    /** A frame starts unloaded; a missing URL becomes the empty string. */
    constructor (url: Option<string>)
      ensures this.url == url.GetOr("")
      ensures !ready
    {
      this.url := url.GetOr("");
      ready := false;
    }

    /** `getUrl()`: the URL fixed when the record was made. */
    function GetUrl(): (u: string)
      ensures u == url
    {
      url
    }

    /** `isReady()`: whether the image has loaded; only `MarkLoaded` turns
        it on. */
    predicate IsReady(): (b: bool)
      reads this
      ensures b == ready
    {
      ready
    }

    /** The image's `onload` handler: the flag goes to true and never back. */
    method MarkLoaded()
      modifies this
      ensures ready
    {
      ready := true;
    }
  }

  /** `RT.coordinator`: the frames, the rotation state, the displayed image
      element (its `src` and class names) and the drag source attached to it. */
  class Coordinator {
    const imageUrls: seq<string>
    const circumference: int
    const source: DragSource
    var images: seq<FrameImage>
    var curAmount: real
    var curIndex: int
    var src: Option<string>
    var className: seq<string>

    /** The frames as values: each record's URL and readiness. */
    ghost function Frames(): seq<Frame>
      reads this, images
    {
      seq(|images|, k requires 0 <= k < |images| reads this, images => Frame(images[k].url, images[k].ready))
    }

    /** The rotation state as a value. */
    ghost function State(): View
      reads this
    {
      View(curAmount, curIndex, src)
    }

    /** The coordinator's invariant: a non-zero circumference, one distinct
        record per URL and the rotation invariant `Rotation.Inv` (amount in
        [0, 1], index in range, the display showing the current frame).  The
        drag source keeps its own `DragSource.Valid()`. */
    ghost predicate Valid()
      reads this, images
    {
      && circumference != 0
      && (forall i, j :: 0 <= i < j < |images| ==> images[i] != images[j])
      && Inv(State(), Frames(), imageUrls)
    }

    /** `RT.coordinator(p)` with `my.init()`: a missing URL list becomes
        `['']`, a missing or zero circumference becomes 200, the display
        starts on the first URL, and one fresh, unloaded record is made per
        URL in order.  An empty URL list is kept as it is (it is truthy in
        JavaScript): no frames, and `undefined` as the source. */
    constructor (circumference: Option<int>, imageUrls: Option<seq<string>>)
      ensures this.imageUrls == imageUrls.GetOr([""])
      ensures this.circumference == (if circumference == None || circumference == Some(0) then 200 else circumference.value)
      ensures Valid()
      ensures |images| == |this.imageUrls|
      ensures forall k :: 0 <= k < |images| ==> fresh(images[k]) && images[k].url == this.imageUrls[k] && !images[k].ready
      ensures curAmount == 0.0 && curIndex == 0 && className == []
      ensures src == if this.imageUrls == [] then None else Some(this.imageUrls[0])
      ensures fresh(source) && source.Valid() && !source.listening
    {
      this.imageUrls := imageUrls.GetOr([""]);
      this.circumference := if circumference == None || circumference == Some(0) then 200 else circumference.value;
      source := new DragSource();
      images := [];
      curAmount := 0.0;
      curIndex := 0;
      className := [];
      new;
      src := if this.imageUrls == [] then None else Some(this.imageUrls[curIndex]);
      var i := 0;
      while i < |this.imageUrls|
        invariant 0 <= i <= |this.imageUrls|
        invariant |images| == i
        invariant forall k :: 0 <= k < i ==> fresh(images[k]) && images[k].url == this.imageUrls[k] && !images[k].ready
        invariant forall k, j :: 0 <= k < j < i ==> images[k] != images[j]
        invariant source.Valid() && !source.listening
        invariant curAmount == 0.0 && curIndex == 0 && className == []
        invariant src == if this.imageUrls == [] then None else Some(this.imageUrls[0])
      {
        var image := new FrameImage(Some(this.imageUrls[i]));
        images := images + [image];
        i := i + 1;
      }
    }

    /** `my.update(deltaX, deltaY)`: the new state is `Rotation.Update` of the
        old one, so the amount stays in [0, 1] and the display only moves to
        a loaded frame. */
    method Update(deltaX: int, deltaY: int)
      requires Valid()
      modifies this
      ensures Valid()
      ensures State() == Rotation.Update(old(State()), Frames(), circumference, deltaX, deltaY)
      ensures images == old(images) && className == old(className)
    {
      ghost var before, frames := State(), Frames();
      var amount := curAmount + (JsRem(deltaX, circumference) as real) / (circumference as real);
      if amount < 0.0 {
        amount := amount + 1.0;
      }
      if amount > 1.0 {
        amount := amount - 1.0;
      }
      assert amount == NextAmount(before.amount, deltaX, circumference);
      var index := FrameIndex(|images|, amount);
      var swap := index != curIndex && index < |images| && images[index].IsReady();
      assert swap == Swaps(frames, before.index, index);
      curAmount := amount;
      if swap {
        src := Some(images[index].GetUrl());
        curIndex := index;
      }
      assert Frames() == frames;
      UpdateKeepsInv(before, frames, imageUrls, circumference, deltaX, deltaY);
    }

    /** Frame `k`'s image has finished loading: only its flag changes. */
    method FrameLoaded(k: nat)
      requires Valid() && k < |images|
      modifies images[k]
      ensures Valid()
      ensures Frames() == old(Frames())[k := Frame(images[k].url, true)]
      ensures State() == old(State())
    {
      ghost var before := Frames();
      images[k].MarkLoaded();
      assert LoadedMore(before, Frames());
      LoadKeepsInv(State(), before, Frames(), imageUrls);
    }

    /** The three listeners of `my.initListeners`: a drag updates the rotation,
        `dragstart` marks the image `active`, `dragend` clears its classes. */
    method Handle(e: DragEvent)
      requires Valid()
      modifies this
      ensures Valid()
      ensures images == old(images)
      ensures e.Drag? ==> State() == Rotation.Update(old(State()), Frames(), circumference, e.x, e.y) && className == old(className)
      ensures e.DragStart? ==> State() == old(State()) && className == ["active"]
      ensures e.DragEnd? ==> State() == old(State()) && className == []
    {
      match e
      case Drag(x, y) => Update(x, y);
      case DragStart => className := ["active"];
      case DragEnd => className := [];
    }

    /** Pointer down on the image: the source reports `drag(0, 0)` and then
        `dragstart`, so the coordinator re-evaluates the current amount (which
        may now reach a frame that loaded since the last drag) and marks the
        image active. */
    method PointerDown(x: int, y: int)
      requires Valid() && source.Valid()
      modifies this, source
      ensures Valid() && source.Valid()
      ensures images == old(images)
      ensures State() == Rotation.Update(old(State()), Frames(), circumference, 0, 0)
      ensures className == ["active"]
      ensures source.listening && source.posX == x && source.posY == y
    {
      var events := source.StartDrag(x, y);
      Handle(events[0]);
      Handle(events[1]);
    }

    /** Pointer move: while a drag is in progress the move since the last
        reported position updates the rotation; otherwise nothing happens. */
    method PointerMove(x: int, y: int)
      requires Valid() && source.Valid()
      modifies this, source
      ensures Valid() && source.Valid()
      ensures images == old(images) && className == old(className)
      ensures old(source.listening) ==>
                State() == Rotation.Update(old(State()), Frames(), circumference, x - old(source.posX), y - old(source.posY))
      ensures !old(source.listening) ==> State() == old(State())
      ensures old(source.listening) ==> source.posX == x && source.posY == y
      ensures !old(source.listening) ==> source.posX == old(source.posX) && source.posY == old(source.posY)
      ensures source.listening == old(source.listening)
    {
      var events := source.PointerMove(x, y);
      if events != [] {
        Handle(events[0]);
      }
    }

    /** Pointer release: ends a drag in progress and clears the `active`
        marker; the rotation state is untouched. */
    method PointerUp()
      requires Valid() && source.Valid()
      modifies this, source
      ensures Valid() && source.Valid()
      ensures images == old(images) && State() == old(State())
      ensures className == if old(source.listening) then [] else old(className)
      ensures !source.listening
      ensures source.posX == old(source.posX) && source.posY == old(source.posY)
    {
      var events := source.PointerUp();
      if events != [] {
        assert events[0] == DragEnd;
        Handle(events[0]);
      }
    }
  }
}
