/** One timeline card (src/components/timeline/TimelineItem.tsx): the image grid chosen by
    the number of images, and the lightbox with its cyclic image index. An event without an
    `images` field behaves as one with no images. */
module TimelineItem {
  import opened Wrappers
  import opened JsMath

  /** A shown image: its url, the index it opens the lightbox at, and the "+k" badge drawn
      over it, if any. */
  datatype Tile = Tile(image: string, index: nat, overlay: Option<nat>)

  /** The grid `getImageLayout` draws: one full-width image, two side by side, or a large
      first image with a column of smaller ones. */
  datatype Layout = Single(only: Tile) | Pair(left: Tile, right: Tile) | Featured(large: Tile, small: seq<Tile>)

  /** The tiles of `images` at positions `lo` to `hi`, opening the lightbox at their own
      position; the badge goes on position 3 and only when there are more than four images. */
  function SmallTiles(images: seq<string>, lo: nat, hi: nat): (tiles: seq<Tile>)
    requires lo <= hi <= |images|
    decreases hi - lo
    ensures |tiles| == hi - lo
    ensures forall k :: 0 <= k < |tiles| ==> tiles[k].image == images[lo + k] && tiles[k].index == lo + k
    ensures forall k :: 0 <= k < |tiles| ==> (tiles[k].overlay.Some? <==> lo + k == 3 && |images| > 4)
    ensures forall k :: 0 <= k < |tiles| && tiles[k].overlay.Some? ==> tiles[k].overlay.value + 4 == |images|
  {
    if lo == hi then []
    else
      var badge := if lo == 3 && |images| > 4 then Some(|images| - 4) else None;
      [Tile(images[lo], lo, badge)] + SmallTiles(images, lo + 1, hi)
  }

  /** `getImageLayout()`; `None` is the `null` drawn for no images. */
  function ImageLayout(images: seq<string>): (layout: Option<Layout>)
    ensures layout.None? <==> images == []
  {
    var n := |images|;
    if n == 0 then None
    else if n == 1 then Some(Single(Tile(images[0], 0, None)))
    else if n == 2 then Some(Pair(Tile(images[0], 0, None), Tile(images[1], 1, None)))
    else if n == 3 then Some(Featured(Tile(images[0], 0, None), SmallTiles(images, 1, 3)))
    else Some(Featured(Tile(images[0], 0, None), SmallTiles(images, 1, 4)))
  }

  /** The tiles of a layout, in reading order. */
  function Tiles(layout: Option<Layout>): seq<Tile> {
    match layout
    case None => []
    case Some(Single(t)) => [t]
    case Some(Pair(l, r)) => [l, r]
    case Some(Featured(large, small)) => [large] + small
  }

  function Min(a: int, b: int): int {
    if a <= b then a else b
  }

  /** The grid shows the first min(n, 4) images in order, each tile opening the lightbox at
      its own index; the "+k" badge, k = n - 4, sits only on the fourth tile (the third small
      one) and only when there are more than four images. */
  lemma LayoutTiles(images: seq<string>)
    ensures |Tiles(ImageLayout(images))| == Min(|images|, 4)
    ensures forall k :: 0 <= k < |Tiles(ImageLayout(images))| ==>
      Tiles(ImageLayout(images))[k].image == images[k] && Tiles(ImageLayout(images))[k].index == k
    ensures forall k :: 0 <= k < |Tiles(ImageLayout(images))| ==>
      (Tiles(ImageLayout(images))[k].overlay.Some? <==> k == 3 && |images| > 4)
    ensures |images| > 4 ==> Tiles(ImageLayout(images))[3].overlay.value + 4 == |images|
  {
    var n := |images|;
    if n >= 3 {
      var small := SmallTiles(images, 1, if n == 3 then 3 else 4);
      var tiles := Tiles(ImageLayout(images));
      assert tiles == [Tile(images[0], 0, None)] + small;
      forall k | 1 <= k < |tiles|
        ensures tiles[k] == small[k - 1]
      {
      }
    }
  }

  /** The layout kind follows the image count: none, one, two, or a large image with two
      or three small ones. */
  lemma LayoutKinds(images: seq<string>)
    ensures ImageLayout(images).None? <==> |images| == 0
    ensures ImageLayout(images).Some? && ImageLayout(images).value.Single? <==> |images| == 1
    ensures ImageLayout(images).Some? && ImageLayout(images).value.Pair? <==> |images| == 2
    ensures |images| >= 3 ==>
      (ImageLayout(images).value.Featured? && |ImageLayout(images).value.small| == Min(|images|, 4) - 1)
  {
  }

  /** The card's lightbox state; `images` is the event's image list. */
  class Lightbox {
    const images: seq<string>
    var currentImageIndex: int
    var isLightboxOpen: bool

    /** The index names an image whenever there is one. */
    ghost predicate Valid()
      reads this
    {
      (|images| == 0 && currentImageIndex == 0) || 0 <= currentImageIndex < |images|
    }

    constructor(images: seq<string>)
      ensures this.images == images && currentImageIndex == 0 && !isLightboxOpen
      ensures Valid()
    {
      this.images := images;
      currentImageIndex := 0;
      isLightboxOpen := false;
    }

    /** `openLightbox(index)`: every caller passes the index of a tile or of an indicator
        dot, an image position (`LayoutTiles`). */
    method OpenLightbox(index: int)
      requires 0 <= index < |images|
      modifies this
      ensures currentImageIndex == index && isLightboxOpen
      ensures Valid()
    {
      currentImageIndex := index;
      isLightboxOpen := true;
    }

    method CloseLightbox()
      modifies this
      ensures !isLightboxOpen && currentImageIndex == old(currentImageIndex)
    {
      isLightboxOpen := false;
    }

    /** `nextImage`: `(prev + 1) % length`, and nothing at all without images. */
    method NextImage()
      requires Valid()
      modifies this
      ensures Valid()
      ensures |images| > 0 ==> currentImageIndex == CyclicNext(old(currentImageIndex), |images|)
      ensures |images| == 0 ==> currentImageIndex == old(currentImageIndex)
      ensures isLightboxOpen == old(isLightboxOpen)
    {
      if |images| > 0 {
        currentImageIndex := JsRem(currentImageIndex + 1, |images|);
      }
    }

    /** `prevImage`: `(prev - 1 + length) % length`, and nothing at all without images. */
    method PrevImage()
      requires Valid()
      modifies this
      ensures Valid()
      ensures |images| > 0 ==> currentImageIndex == CyclicPrev(old(currentImageIndex), |images|)
      ensures |images| == 0 ==> currentImageIndex == old(currentImageIndex)
      ensures isLightboxOpen == old(isLightboxOpen)
    {
      if |images| > 0 {
        currentImageIndex := JsRem(currentImageIndex - 1 + |images|, |images|);
      }
    }

    /** A click on the indicator dot of image `index`. */
    method SelectImage(index: int)
      requires 0 <= index < |images|
      modifies this
      ensures currentImageIndex == index && isLightboxOpen == old(isLightboxOpen)
      ensures Valid()
    {
      currentImageIndex := index;
    }

    /** The image the open lightbox shows, if it is drawn at all. */
    function Shown(): (shown: Option<string>)
      requires Valid()
      reads this
      ensures shown.Some? <==> isLightboxOpen && |images| > 0
      ensures shown.Some? ==> shown.value == images[currentImageIndex]
    {
      if isLightboxOpen && |images| > 0 then Some(images[currentImageIndex]) else None
    }
  }
}
