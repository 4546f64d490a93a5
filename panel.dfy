/**
 * The decisions the intelligence panel makes before it renders: where the card sits relative to
 * the tap (horizontal anchor, vertical anchor, tether, tilt, entry animation), what the media
 * block shows, and the short name in the header tag.
 */
module IntelligencePanel {
  import opened Wrappers
  import opened Types

  /** The panel width the placement assumes, in pixels. */
  const PanelWidth: real := 400.0
  /** The gap kept between the card and the viewport's edge, in pixels. */
  const EdgeMargin: real := 20.0
  /** Half a panel plus the margin: the distance from an edge inside which a centred card would clip. */
  const EdgeZone: real := PanelWidth / 2.0 + EdgeMargin

  /** A CSS length as the panel writes it into a style: `auto`, a percentage or pixels. */
  datatype CssLength = Auto | Percent(p: real) | Px(px: real)

  /** Everything the panel derives from the tap and the viewport. */
  datatype Placement = Placement(
    translateX: CssLength,
    translateY: CssLength,
    tetherTop: CssLength,
    tetherBottom: CssLength,
    tetherHeight: CssLength,
    tetherFlipped: bool,       // `rotate(180deg)` rather than `none`
    tiltX: real,               // degrees
    tiltY: real,               // degrees
    entryTranslateX: CssLength,
    entryTranslateY: CssLength)

  /** The tap's horizontal position in pixels. */
  function ClickXPixels(x: real, viewportWidth: real): real {
    x / 100.0 * viewportWidth
  }

  /**
   * The horizontal anchor: centred by default, left edge at the tap near the left side, right edge
   * at the tap near the right side; the right-side test runs last and so wins when both fire.
   */
  function TranslateX(x: real, viewportWidth: real): (t: CssLength)
    ensures t == Percent(-100.0) <==> ClickXPixels(x, viewportWidth) > viewportWidth - EdgeZone
    ensures t == Percent(0.0) <==>
      ClickXPixels(x, viewportWidth) < EdgeZone && ClickXPixels(x, viewportWidth) <= viewportWidth - EdgeZone
    ensures t == Percent(-50.0) <==>
      EdgeZone <= ClickXPixels(x, viewportWidth) <= viewportWidth - EdgeZone
  {
    var px := ClickXPixels(x, viewportWidth);
    var centred := Percent(-50.0);
    var afterLeftCheck := if px < EdgeZone then Percent(0.0) else centred;
    if px > viewportWidth - EdgeZone then Percent(-100.0) else afterLeftCheck
  }

  /** The vertical rule reads the percentage, not pixels: the upper half is `y < 50`. */
  predicate IsNearTop(click: ClickPosition) {
    click.y < 50.0
  }

  /** The card's forward tilt in degrees, from the tap's distance to the vertical centre. */
  function TiltX(y: real): (r: real)
    ensures r == 0.0 <==> y == 50.0
    ensures r > 0.0 <==> y > 50.0
  {
    (y - 50.0) * 0.15
  }

  /** The card's sideways tilt in degrees, from the tap's distance to the horizontal centre. */
  function TiltY(x: real): (r: real)
    ensures r == 0.0 <==> x == 50.0
    ensures r < 0.0 <==> x > 50.0
  {
    (x - 50.0) * -0.15
  }

  /** Mirroring a coordinate about 50 flips the sign of its tilt. */
  lemma TiltMirror(d: real)
    ensures TiltX(50.0 + d) == -TiltX(50.0 - d)
    ensures TiltY(50.0 + d) == -TiltY(50.0 - d)
  {
  }

  /**
   * The whole placement. The viewport height is an input of the source's computation (it derives a
   * pixel y from it) but no output depends on it.
   */
  function ComputePlacement(click: ClickPosition, viewportWidth: real, viewportHeight: real): (p: Placement)
    ensures p.translateX == TranslateX(click.x, viewportWidth)
    ensures click.y < 50.0 ==>
      && p.translateY == Px(40.0) && p.tetherHeight == Px(40.0)
      && p.tetherTop == Percent(click.y) && p.tetherBottom == Auto && p.tetherFlipped
      && p.entryTranslateY == Px(60.0)
    ensures click.y >= 50.0 ==>
      && p.translateY == Percent(-115.0) && p.tetherHeight == Px(100.0)
      && p.tetherTop == Auto && p.tetherBottom == Percent(100.0 - click.y) && !p.tetherFlipped
      && p.entryTranslateY == Percent(-135.0)
    ensures (p.tetherTop == Auto) != (p.tetherBottom == Auto)
    ensures p.entryTranslateX == p.translateX
    ensures p.tiltX == TiltX(click.y) && p.tiltY == TiltY(click.x)
  {
    var translateX := TranslateX(click.x, viewportWidth);
    var nearTop := IsNearTop(click);
    Placement(
      translateX := translateX,
      translateY := if nearTop then Px(40.0) else Percent(-115.0),
      tetherTop := if nearTop then Percent(click.y) else Auto,
      tetherBottom := if nearTop then Auto else Percent(100.0 - click.y),
      tetherHeight := if nearTop then Px(40.0) else Px(100.0),
      tetherFlipped := nearTop,
      tiltX := TiltX(click.y),
      tiltY := TiltY(click.x),
      entryTranslateX := translateX,
      entryTranslateY := if nearTop then Px(60.0) else Percent(-135.0))
  }

  /**
   * The entry animation starts further out than the resting position, on the same side of the tap
   * (further down below a tap in the upper half, further up otherwise), so the card slides toward
   * its resting place; horizontally it starts already anchored.
   */
  lemma EntrySlidesTowardRest(click: ClickPosition, viewportWidth: real, viewportHeight: real)
    ensures var p := ComputePlacement(click, viewportWidth, viewportHeight);
      && p.entryTranslateX == p.translateX
      && (IsNearTop(click) ==> p.entryTranslateY.Px? && p.translateY.Px? && p.entryTranslateY.px > p.translateY.px > 0.0)
      && (!IsNearTop(click) ==> p.entryTranslateY.Percent? && p.translateY.Percent? && p.entryTranslateY.p < p.translateY.p < 0.0)
  {
  }

  /**
   * A tap at (10%, 30%) on a 375x800 viewport: the card hangs below the tap, its left edge at the
   * tap, on a 40px tether anchored by its top.
   */
  lemma SmallScreenUpperTap()
    ensures var p := ComputePlacement(ClickPosition(10.0, 30.0), 375.0, 800.0);
      && p.translateX == Percent(0.0) && p.translateY == Px(40.0)
      && p.tetherHeight == Px(40.0) && p.tetherTop == Percent(30.0) && p.tetherBottom == Auto
  {
    assert ClickXPixels(10.0, 375.0) == 37.5;
  }

  /** Nothing vertical depends on the viewport, and nothing at all on its height. */
  lemma PlacementIgnoresViewportHeight(click: ClickPosition, w1: real, h1: real, w2: real, h2: real)
    ensures ComputePlacement(click, w1, h1) == ComputePlacement(click, w1, h2)
    ensures var p1, p2 := ComputePlacement(click, w1, h1), ComputePlacement(click, w2, h2);
      && p1.translateY == p2.translateY && p1.tetherTop == p2.tetherTop
      && p1.tetherBottom == p2.tetherBottom && p1.tetherHeight == p2.tetherHeight
      && p1.tetherFlipped == p2.tetherFlipped && p1.entryTranslateY == p2.entryTranslateY
      && p1.tiltX == p2.tiltX && p1.tiltY == p2.tiltY
  {
  }

  /** In a viewport narrower than two edge zones, a tap in the overlap is anchored by the right edge. */
  lemma NarrowViewportRightWins(x: real, viewportWidth: real)
    requires viewportWidth < 2.0 * EdgeZone
    requires viewportWidth - EdgeZone < ClickXPixels(x, viewportWidth) < EdgeZone
    ensures TranslateX(x, viewportWidth) == Percent(-100.0)
  {
  }

  /** The rendered card width: `min(92vw, 400px)`. */
  function CardWidth(viewportWidth: real): (w: real)
    ensures w <= PanelWidth && w <= 0.92 * viewportWidth
    ensures w == PanelWidth || w == 0.92 * viewportWidth
  {
    if 0.92 * viewportWidth < PanelWidth then 0.92 * viewportWidth else PanelWidth
  }

  /** The card's left edge in pixels: the tap, shifted by the anchor's percentage of the card width. */
  function CardLeft(x: real, viewportWidth: real): real {
    ClickXPixels(x, viewportWidth) + TranslateX(x, viewportWidth).p / 100.0 * CardWidth(viewportWidth)
  }

  /** A tap inside the viewport lies between its two edges in pixels. */
  lemma PixelsWithinViewport(x: real, viewportWidth: real)
    requires 0.0 <= x <= 100.0 && viewportWidth >= 0.0
    ensures 0.0 <= ClickXPixels(x, viewportWidth) <= viewportWidth
  {
    assert ClickXPixels(x, viewportWidth) == x * viewportWidth / 100.0;
    assert 0.0 <= x * viewportWidth;
    assert (100.0 - x) * viewportWidth >= 0.0;
    assert 100.0 * viewportWidth - x * viewportWidth == (100.0 - x) * viewportWidth;
  }

  /** A centred card always keeps the 20px margin from both edges, whatever the viewport width. */
  lemma CentredCardKeepsMargin(x: real, viewportWidth: real)
    requires TranslateX(x, viewportWidth) == Percent(-50.0)
    ensures CardLeft(x, viewportWidth) >= EdgeMargin
    ensures CardLeft(x, viewportWidth) + CardWidth(viewportWidth) <= viewportWidth - EdgeMargin
  {
  }

  /**
   * In a viewport at least 620px wide (a panel plus one edge zone), a tap inside the viewport puts
   * the whole card on screen, whichever anchor is chosen.
   */
  lemma CardStaysOnScreen(x: real, viewportWidth: real)
    requires 0.0 <= x <= 100.0
    requires viewportWidth >= PanelWidth + EdgeZone
    ensures 0.0 <= CardLeft(x, viewportWidth)
    ensures CardLeft(x, viewportWidth) + CardWidth(viewportWidth) <= viewportWidth
  {
    PixelsWithinViewport(x, viewportWidth);
  }

  /**
   * Below that width the promise fails: on a 500px viewport a tap at 40% is anchored by the card's
   * left edge at 200px, and the 400px card runs to 600px.
   */
  lemma CardCanOverflowNarrowViewport()
    ensures TranslateX(40.0, 500.0) == Percent(0.0)
    ensures CardLeft(40.0, 500.0) + CardWidth(500.0) > 500.0
  {
    assert ClickXPixels(40.0, 500.0) == 200.0;
  }

  /** What the media block shows. */
  datatype MediaBlock = Picture(src: string) | QuotaNotice | Spinner

  /** `referenceImage || (aiImage === QUOTA ? null : aiImage)`. */
  function DisplayImage(referenceImage: Option<string>, aiImage: Option<string>): (d: Option<string>)
    ensures Truthy(referenceImage) ==> d == referenceImage
    ensures d == Some(QuotaSentinel) ==> referenceImage == Some(QuotaSentinel)
    ensures !Truthy(referenceImage) && aiImage != Some(QuotaSentinel) ==> d == aiImage
    ensures !Truthy(referenceImage) && aiImage == Some(QuotaSentinel) ==> d.None?
  {
    if Truthy(referenceImage) then referenceImage
    else if aiImage == Some(QuotaSentinel) then None
    else aiImage
  }

  /**
   * The media block: the display image when there is one, else the quota notice when the AI image
   * is the sentinel, else the spinner.
   */
  function MediaContent(result: RecognitionResult, aiImage: Option<string>): (m: MediaBlock)
    ensures Truthy(result.referenceImage) ==> m == Picture(result.referenceImage.value)
    ensures m.Picture? ==> m.src != ""
    ensures m.Picture? && !Truthy(result.referenceImage) ==> aiImage == Some(m.src) && m.src != QuotaSentinel
    ensures m == QuotaNotice <==> !Truthy(result.referenceImage) && aiImage == Some(QuotaSentinel)
    ensures m == Spinner <==>
      !Truthy(result.referenceImage) && !Truthy(aiImage) && aiImage != Some(QuotaSentinel)
  {
    var displayImage := DisplayImage(result.referenceImage, aiImage);
    var quotaExceeded := aiImage == Some(QuotaSentinel);
    if Truthy(displayImage) then Picture(displayImage.value)
    else if quotaExceeded then QuotaNotice
    else Spinner
  }

  /** The label prefix of the header tag. */
  const HeaderPrefix: string := "Intel_Node::"

  /** The header tag: the prefix followed by at most the first eight characters of the name. */
  function HeaderTag(name: string): (tag: string)
    ensures |HeaderPrefix| <= |tag| && tag[..|HeaderPrefix|] == HeaderPrefix
    ensures var shown := tag[|HeaderPrefix|..];
      && |shown| == (if |name| < 8 then |name| else 8)
      && shown == name[..|shown|]
  {
    var shown := if |name| < 8 then name else name[..8];
    HeaderPrefix + shown
  }
}
