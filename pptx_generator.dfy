/**
 * The deck builder: one slide per rendered page, in page order, on a fixed
 * 10 x 5.625 inch (16:9) slide, each page image scaled to fit the slide
 * without cropping and centred on the axis that has room to spare.
 *
 * The pptxgenjs builder is modelled by `Presentation`, whose slide list
 * only ever grows; the package it writes at the end is modelled by the
 * deck it describes (`Presentation.Contents`), not by its bytes.
 */
module PptxGenerator {
  import opened PdfProcessor

  /** The slide size in inches; fixed for every deck, whatever the pages' sizes. */
  const SlideWidth: real := 10.0
  const SlideHeight: real := 5.625

  /** A named slide size. */
  datatype Layout = Layout(name: string, width: real, height: real)

  /** The layout every generated deck uses. */
  const CustomLayout: Layout := Layout("CUSTOM", SlideWidth, SlideHeight)

  /** The builder's default layout, 16:9 at 10 x 5.625 inches, before any is chosen. */
  const DefaultLayout: Layout := Layout("LAYOUT_16x9", 10.0, 5.625)

  /** Where an image sits on its slide, in inches from the top-left corner. */
  datatype Placement = Placement(x: real, y: real, w: real, h: real)

  /** An image on a slide: its data URL and its placement. */
  datatype Picture = Picture(data: DataUrl, place: Placement)

  datatype Slide = Slide(pictures: seq<Picture>)

  /** What a presentation package holds: its slide size and its slides in order. */
  datatype Deck = Deck(layout: Layout, slides: seq<Slide>)

  /**
   * The placement of a page of the given size: fit to the slide's width
   * when the page is relatively wider than the slide, else to its height,
   * keeping the page's aspect ratio and centring the image.
   */
  function Fit(pageWidth: real, pageHeight: real): (p: Placement)
    requires pageWidth > 0.0 && pageHeight > 0.0
    ensures 0.0 < p.w && 0.0 < p.h
    ensures 0.0 <= p.x && p.x + p.w <= SlideWidth
    ensures 0.0 <= p.y && p.y + p.h <= SlideHeight
    ensures p.w / p.h == pageWidth / pageHeight
    ensures pageWidth / pageHeight > SlideWidth / SlideHeight ==> p.w == SlideWidth && p.x == 0.0
    ensures pageWidth / pageHeight <= SlideWidth / SlideHeight ==> p.h == SlideHeight && p.y == 0.0
    ensures p.x == (SlideWidth - p.w) / 2.0 && p.y == (SlideHeight - p.h) / 2.0
  {
    var pageAspect := pageWidth / pageHeight;
    var slideAspect := SlideWidth / SlideHeight;
    if pageAspect > slideAspect then
      var h := SlideWidth / pageAspect;
      Placement(0.0, (SlideHeight - h) / 2.0, SlideWidth, h)
    else
      var w := SlideHeight * pageAspect;
      Placement((SlideWidth - w) / 2.0, 0.0, w, SlideHeight)
  }

  /** The slide made for one page: that page's image, unchanged, at its fitted placement. */
  function SlideFor(page: PageImage): Slide
    requires page.width > 0.0 && page.height > 0.0
  {
    Slide([Picture(page.dataUrl, Fit(page.width, page.height))])
  }

  /** Every page has a positive size, as every page pdf.js renders does. */
  predicate Measurable(pages: seq<PageImage>) {
    forall i :: 0 <= i < |pages| ==> pages[i].width > 0.0 && pages[i].height > 0.0
  }

  /** The pptxgenjs presentation being built. */
  class Presentation {
    var layouts: map<string, Layout>
    var layout: Layout
    var slides: seq<Slide>

    constructor ()
      ensures layouts == map[] && layout == DefaultLayout && slides == []
    {
      layouts := map[];
      layout := DefaultLayout;
      slides := [];
    }

    /** `defineLayout`: register a slide size under its name. */
    method DefineLayout(l: Layout)
      modifies this
      ensures layouts == old(layouts)[l.name := l]
      ensures layout == old(layout) && slides == old(slides)
    {
      layouts := layouts[l.name := l];
    }

    /** Assigning `layout`: choose a registered slide size for the whole presentation. */
    method SelectLayout(name: string)
      requires name in layouts
      modifies this
      ensures name in layouts && layout == layouts[name]
      ensures layouts == old(layouts) && slides == old(slides)
    {
      layout := layouts[name];
    }

    /** `addSlide`: append an empty slide and hand back its position. */
    method AddSlide() returns (index: nat)
      modifies this
      ensures slides == old(slides) + [Slide([])] && index == |old(slides)|
      ensures layouts == old(layouts) && layout == old(layout)
    {
      index := |slides|;
      slides := slides + [Slide([])];
    }

    /** `slide.addImage`: add a picture to the slide at `index`; no other slide changes. */
    method AddImage(index: nat, picture: Picture)
      requires index < |slides|
      modifies this
      ensures slides == old(slides)[index := Slide(old(slides)[index].pictures + [picture])]
      ensures layouts == old(layouts) && layout == old(layout)
    {
      slides := slides[index := Slide(slides[index].pictures + [picture])];
    }

    /** What `write` packages: the chosen slide size and the slides. */
    function Contents(): Deck
      reads this
    {
      Deck(layout, slides)
    }
  }

  /**
   * `generatePptx`: one slide per page, in page order, each holding exactly
   * that page's image at its fitted placement, on the fixed custom slide.
   */
  method GeneratePptx(pages: seq<PageImage>) returns (deck: Deck)
    requires Measurable(pages)
    ensures deck.layout == CustomLayout
    ensures |deck.slides| == |pages|
    ensures forall i :: 0 <= i < |pages| ==> deck.slides[i] == SlideFor(pages[i])
  {
    var pptx := new Presentation();
    pptx.DefineLayout(Layout("CUSTOM", SlideWidth, SlideHeight));
    pptx.SelectLayout("CUSTOM");
    for i := 0 to |pages|
      invariant pptx.layout == CustomLayout
      invariant |pptx.slides| == i
      invariant forall j :: 0 <= j < i ==> pptx.slides[j] == SlideFor(pages[j])
    {
      var page := pages[i];
      var index := pptx.AddSlide();
      var place := Fit(page.width, page.height);
      pptx.AddImage(index, Picture(page.dataUrl, place));
    }
    deck := pptx.Contents();
  }

  // ---------------------------------------------------------------------
  // Properties of the placement rule.
  // ---------------------------------------------------------------------

  /**
   * The image fills the whole slide exactly when the page has the slide's
   * aspect ratio; otherwise exactly one axis is full.
   */
  lemma FullBleedIffSameAspect(pageWidth: real, pageHeight: real)
    requires pageWidth > 0.0 && pageHeight > 0.0
    ensures var p := Fit(pageWidth, pageHeight);
            (p.w == SlideWidth && p.h == SlideHeight)
              <==> pageWidth / pageHeight == SlideWidth / SlideHeight
    ensures var p := Fit(pageWidth, pageHeight);
            pageWidth / pageHeight == SlideWidth / SlideHeight ==> p.x == 0.0 && p.y == 0.0
    ensures var p := Fit(pageWidth, pageHeight);
            pageWidth / pageHeight != SlideWidth / SlideHeight ==> (p.w == SlideWidth) != (p.h == SlideHeight)
  {
  }

  /**
   * A 16:9 page fills its slide; a portrait US-letter page (8.5 x 11) is
   * pillarboxed at full height, 765/176 (about 4.35) wide with margins of
   * 995/352 (about 2.83) on each side.
   */
  lemma LetterPagesOnWideSlide()
    ensures Fit(10.0, 5.625) == Placement(0.0, 0.0, SlideWidth, SlideHeight)
    ensures Fit(8.5, 11.0) == Placement(995.0 / 352.0, 0.0, 765.0 / 176.0, SlideHeight)
  {
  }

  /**
   * The contain rule stated independently: scale the page by the largest
   * factor that keeps both sides inside the slide, then centre it.
   */
  function ContainScaled(pageWidth: real, pageHeight: real): Placement
    requires pageWidth > 0.0 && pageHeight > 0.0
  {
    var byWidth := SlideWidth / pageWidth;
    var byHeight := SlideHeight / pageHeight;
    var s := if byWidth < byHeight then byWidth else byHeight;
    var w := pageWidth * s;
    var h := pageHeight * s;
    Placement((SlideWidth - w) / 2.0, (SlideHeight - h) / 2.0, w, h)
  }

  /** The source's aspect-ratio comparison computes the contain rule. */
  lemma FitIsContainScaled(pageWidth: real, pageHeight: real)
    requires pageWidth > 0.0 && pageHeight > 0.0
    ensures Fit(pageWidth, pageHeight) == ContainScaled(pageWidth, pageHeight)
  {
  }

  /**
   * No larger image of the page's aspect ratio fits on the slide: any
   * width w and height h in that ratio that fit are at most the placement's.
   */
  lemma FitIsLargest(pageWidth: real, pageHeight: real, w: real, h: real)
    requires pageWidth > 0.0 && pageHeight > 0.0
    requires 0.0 < w <= SlideWidth && 0.0 < h <= SlideHeight
    requires w / h == pageWidth / pageHeight
    ensures w <= Fit(pageWidth, pageHeight).w && h <= Fit(pageWidth, pageHeight).h
  {
  }
}
