/** The handler between the viewer and the open PDF document
    (QtApp/src/qtapp/utils/TextHandler.py): it reads a page's links and
    annotations as pixel-space records, and deletes, retypes and moves them
    on the page. The pymupdf document is a sequence of pages, and a page
    holds the annotations and the links pymupdf yields for it, in order. */
module PageAnnotations {
  import opened Outcomes
  import opened QtGeometry
  import opened Conversions
  import opened ConfigCodec

  /** MuPDF's annotation type codes used here. */
  const PdfAnnotLink := 1
  const PdfAnnotHighlight := 8
  const PdfAnnotUnderline := 9

  /** The border dictionary of an annotation, carried through unchanged. */
  datatype Border = Border(width: real, dashes: seq<int>, style: Option<string>)

  /** The link dictionary of a link annotation. */
  datatype AnnotLink = AnnotLink(kind: int, page: Option<int>, uri: Option<string>)

  /** An annotation: its type as (code, name), page-point rect, stroke
      colour, opacity, border and, for link annotations, its link. */
  datatype Annot = Annot(typeCode: int, typeName: string, rect: PyRect, stroke: Option<seq<real>>,
                         opacity: real, border: Border, link: Option<AnnotLink>)

  /** A link dictionary of `get_links`; `xref` identifies it on the page. */
  datatype Link = Link(xref: int, kind: Option<int>, from: PyRect, page: Option<int>,
                       to: Option<PyPoint>, uri: Option<string>)

  /** The record `get_all_links` builds for one link. */
  datatype LinkView = LinkView(kind: Option<int>, from: RectF, page: Option<int>, to: Option<PointF>,
                               toDpi: PointF, uri: Option<string>)

  /** The record `get_all_annotations` builds for one annotation; the link
      keys are present only for a link annotation that has a link. */
  datatype AnnotView = AnnotView(typeName: string, rect: RectF, color: Option<seq<real>>, opacity: real,
                                 border: Border, linkFields: Option<AnnotLink>)

  // ---- records in pixel space ----

  /** One link of `get_all_links`. The destination point is divided by the
      zoom factor, so a link with a destination raises ZeroDivisionError at
      zoom 0; without one, `to` is None and `to_dpi` falls back to the top
      left corner of the source rect. */
  function LinkRecord(link: Link, zoom: real): (r: Result<LinkView>)
    ensures r.Err? <==> link.to.Some? && zoom == 0.0
    ensures r.Err? ==> r.error == ZeroDivisionError
  {
    var qtRectF := RectPyToQt(link.from);
    var qtRect := DpiToPx(qtRectF, zoom);
    if link.to.Some? then
      match PointToPx(PointPyToQt(link.to.value), zoom)
      case Err(e) => Err(e)
      case Ok(to) => Ok(LinkView(link.kind, qtRect, link.page, Some(to), PointPyToQt(link.to.value), link.uri))
    else Ok(LinkView(link.kind, qtRect, link.page, None, qtRectF.TopLeft(), link.uri))
  }

  /** A link record keeps the kind, page and uri, scales the source rect to
      pixels, divides the destination by the zoom factor, and takes the
      destination, or else the top left corner of the source rect, as
      `to_dpi`. */
  lemma LinkRecordFields(link: Link, zoom: real)
    requires LinkRecord(link, zoom).Ok?
    ensures var v := LinkRecord(link, zoom).value;
      && v.from == DpiToPx(RectPyToQt(link.from), zoom)
      && v.kind == link.kind && v.page == link.page && v.uri == link.uri
      && (v.to.Some? <==> link.to.Some?)
      && (link.to.Some? ==> v.to.value.x * zoom == link.to.value.x && v.to.value.y * zoom == link.to.value.y)
      && v.toDpi == (if link.to.Some? then PointPyToQt(link.to.value) else PointPyToQt(link.from.TopLeft()))
  {
    if link.to.Some? {
      PointToPxScales(PointPyToQt(link.to.value), zoom);
    }
  }

  /** One annotation of `get_all_annotations`: the same type name, colour,
      opacity and border, the rect scaled to pixels, and the link keys only
      for a link annotation with a link. */
  function AnnotRecord(a: Annot, zoom: real): (v: AnnotView)
    ensures v.rect == DpiToPx(RectPyToQt(a.rect), zoom)
    ensures v.typeName == a.typeName && v.color == a.stroke && v.opacity == a.opacity && v.border == a.border
    ensures v.linkFields.Some? <==> a.typeCode == PdfAnnotLink && a.link.Some?
    ensures v.linkFields.Some? ==> v.linkFields == a.link
  {
    var qtRect := DpiToPx(RectPyToQt(a.rect), zoom);
    var fields := if a.typeCode == PdfAnnotLink && a.link.Some? then a.link else None;
    AnnotView(a.typeName, qtRect, a.stroke, a.opacity, a.border, fields)
  }

  /** A pixel record's rect is the page rect scaled: at a non-zero zoom
      `px_to_dpi` gives the page rect back. */
  lemma RecordRectsReadBack(a: Annot, link: Link, zoom: real)
    requires zoom != 0.0
    ensures PxToDpi(AnnotRecord(a, zoom).rect, zoom) == Ok(RectPyToQt(a.rect))
    ensures LinkRecord(link, zoom).Ok? ==> PxToDpi(LinkRecord(link, zoom).value.from, zoom) == Ok(RectPyToQt(link.from))
  {
    ScaleRoundTrips(RectPyToQt(a.rect), zoom);
    ScaleRoundTrips(RectPyToQt(link.from), zoom);
    if LinkRecord(link, zoom).Ok? {
      LinkRecordFields(link, zoom);
    }
  }

  // ---- editing a page's annotations, as values ----

  /** `set_info(type=...)` of `toggle_type`: Underline and Highlight swap,
      every other type is left alone. */
  function ToggledType(a: Annot): Annot {
    if a.typeName == "Underline" then a.(typeCode := PdfAnnotHighlight, typeName := "Highlight")
    else if a.typeName == "Highlight" then a.(typeCode := PdfAnnotUnderline, typeName := "Underline")
    else a
  }

  /** `annot_action` on the page's annotation list. */
  function AnnotActionOn(annots: seq<Annot>, i: int, action: string, newRect: Option<PyRect>): seq<Annot> {
    if !(0 <= i < |annots|) then annots
    else if action == "delete" then annots[..i] + annots[i + 1..]
    else if action == "toggle_type" then annots[i := ToggledType(annots[i])]
    else if action == "update_rect" && newRect.Some? then annots[i := annots[i].(rect := newRect.value)]
    else annots
  }

  /** No annotation at the index, or an action the handler does not know
      (update_rect included, when no rect is given): nothing changes. */
  lemma AnnotActionNoOp(annots: seq<Annot>, i: int, action: string, newRect: Option<PyRect>)
    requires !(0 <= i < |annots|)
      || (action != "delete" && action != "toggle_type" && (action != "update_rect" || newRect.None?))
    ensures AnnotActionOn(annots, i, action, newRect) == annots
  {
  }

  /** "delete" takes out annotation i and nothing else; the others keep
      their order. */
  lemma DeleteAnnotRemovesOne(annots: seq<Annot>, i: int, newRect: Option<PyRect>)
    requires 0 <= i < |annots|
    ensures var r := AnnotActionOn(annots, i, "delete", newRect);
      && |r| == |annots| - 1
      && (forall k :: 0 <= k < i ==> r[k] == annots[k])
      && (forall k :: i <= k < |r| ==> r[k] == annots[k + 1])
      && multiset(r) + multiset{annots[i]} == multiset(annots)
  {
    var r := AnnotActionOn(annots, i, "delete", newRect);
    assert annots == annots[..i] + [annots[i]] + annots[i + 1..];
    assert r == annots[..i] + annots[i + 1..];
  }

  /** "toggle_type" changes the type of annotation i and nothing else:
      Underline becomes Highlight, Highlight becomes Underline, any other
      type stays. */
  lemma ToggleChangesOnlyType(annots: seq<Annot>, i: int, newRect: Option<PyRect>)
    requires 0 <= i < |annots|
    ensures var r := AnnotActionOn(annots, i, "toggle_type", newRect);
      && |r| == |annots| && (forall k :: 0 <= k < |r| && k != i ==> r[k] == annots[k])
      && r[i] == annots[i].(typeCode := r[i].typeCode, typeName := r[i].typeName)
      && (annots[i].typeName == "Underline" ==> r[i].typeName == "Highlight" && r[i].typeCode == PdfAnnotHighlight)
      && (annots[i].typeName == "Highlight" ==> r[i].typeName == "Underline" && r[i].typeCode == PdfAnnotUnderline)
      && (annots[i].typeName != "Underline" && annots[i].typeName != "Highlight" ==> r == annots)
  {
  }

  /** Toggling twice gives the list back, for an Underline or Highlight
      annotation whose code agrees with its name. */
  lemma ToggleTwice(annots: seq<Annot>, i: int, newRect: Option<PyRect>)
    requires 0 <= i < |annots|
    requires (annots[i].typeName == "Underline" && annots[i].typeCode == PdfAnnotUnderline)
      || (annots[i].typeName == "Highlight" && annots[i].typeCode == PdfAnnotHighlight)
    ensures AnnotActionOn(AnnotActionOn(annots, i, "toggle_type", newRect), i, "toggle_type", newRect) == annots
  {
    var r := AnnotActionOn(annots, i, "toggle_type", newRect);
    assert r[i].typeName == "Underline" || r[i].typeName == "Highlight";
  }

  /** "update_rect" with a rect moves annotation i there and changes
      nothing else. */
  lemma UpdateRectMovesOne(annots: seq<Annot>, i: int, rect: PyRect)
    requires 0 <= i < |annots|
    ensures var r := AnnotActionOn(annots, i, "update_rect", Some(rect));
      && |r| == |annots| && (forall k :: 0 <= k < |r| && k != i ==> r[k] == annots[k])
      && r[i].rect == rect && r[i] == annots[i].(rect := rect)
  {
  }

  // ---- editing a page's links, as values ----

  /** `delete_link`: the page loses the link with that xref. */
  function DeleteLink(links: seq<Link>, xref: int): (r: seq<Link>)
    ensures |r| <= |links|
    decreases |links|
  {
    if links == [] then []
    else if links[0].xref == xref then DeleteLink(links[1..], xref)
    else [links[0]] + DeleteLink(links[1..], xref)
  }

  /** `delete_link` keeps exactly the links with another xref. */
  lemma {:induction false} DeleteLinkFilters(links: seq<Link>, xref: int)
    ensures forall k :: 0 <= k < |DeleteLink(links, xref)| ==>
      DeleteLink(links, xref)[k].xref != xref && DeleteLink(links, xref)[k] in links
    ensures forall l :: l in links && l.xref != xref ==> l in DeleteLink(links, xref)
    decreases |links|
  {
    if links != [] {
      DeleteLinkFilters(links[1..], xref);
      assert links == [links[0]] + links[1..];
    }
  }

  /** `update_link`: the page's link with that xref becomes `link`. */
  function UpdateLink(links: seq<Link>, link: Link): (r: seq<Link>)
    ensures |r| == |links|
    ensures forall k :: 0 <= k < |r| ==> r[k] == if links[k].xref == link.xref then link else links[k]
  {
    seq(|links|, k requires 0 <= k < |links| => if links[k].xref == link.xref then link else links[k])
  }

  predicate DistinctXrefs(links: seq<Link>) {
    forall i, j :: 0 <= i < j < |links| ==> links[i].xref != links[j].xref
  }

  /** When the page's links carry distinct xrefs, deleting link k's xref
      removes exactly position k. */
  lemma {:induction false} DeleteLinkAt(links: seq<Link>, k: int)
    requires DistinctXrefs(links) && 0 <= k < |links|
    ensures DeleteLink(links, links[k].xref) == links[..k] + links[k + 1..]
    decreases |links|
  {
    if k == 0 {
      NoXref(links[1..], links[0].xref);
      assert links[1..] == links[..0] + links[1..];
    } else {
      DeleteLinkAt(links[1..], k - 1);
      assert links[0].xref != links[k].xref;
      DeleteLinkKeepsHead(links, k, links[k].xref);
    }
  }

  /** The step of `DeleteLinkAt` for k > 0: the head survives, and the rest is
      the tail with its link k - 1 removed. */
  lemma DeleteLinkKeepsHead(links: seq<Link>, k: int, xref: int)
    requires 0 < k < |links| && links[0].xref != xref
    requires DeleteLink(links[1..], xref) == links[1..][..k - 1] + links[1..][k..]
    ensures DeleteLink(links, xref) == links[..k] + links[k + 1..]
  {
    assert links[..k] == [links[0]] + links[1..][..k - 1];
    assert links[k + 1..] == links[1..][k..];
  }

  /** A list without the xref loses nothing. */
  lemma {:induction false} NoXref(links: seq<Link>, xref: int)
    requires forall k :: 0 <= k < |links| ==> links[k].xref != xref
    ensures DeleteLink(links, xref) == links
    decreases |links|
  {
    if links != [] {
      NoXref(links[1..], xref);
      assert links == [links[0]] + links[1..];
    }
  }

  /** With distinct xrefs, "change" rewrites the destination of link k and
      leaves every other link as it was. */
  lemma ChangeLinkAt(links: seq<Link>, k: int, dest: Option<PyPoint>)
    requires DistinctXrefs(links) && 0 <= k < |links|
    ensures UpdateLink(links, links[k].(to := dest)) == links[k := links[k].(to := dest)]
  {
  }

  /** The records of `get_all_links` for a list of links, built first to
      last; the first link that raises stops the loop. */
  function LinkRecords(links: seq<Link>, zoom: real): Result<seq<LinkView>>
    decreases |links|
  {
    if links == [] then Ok([])
    else match LinkRecords(links[..|links| - 1], zoom)
      case Err(e) => Err(e)
      case Ok(views) =>
        match LinkRecord(links[|links| - 1], zoom)
        case Err(e) => Err(e)
        case Ok(v) => Ok(views + [v])
  }

  /** What `get_all_links` returns for the page's links: an error exactly
      when some link has a destination and the zoom is 0, and then
      ZeroDivisionError; otherwise one record per link, in order. */
  predicate LinkRecordsOf(links: seq<Link>, zoom: real, r: Result<seq<LinkView>>) {
    && (r.Ok? <==> zoom != 0.0 || forall k :: 0 <= k < |links| ==> links[k].to.None?)
    && (r.Err? ==> r.error == ZeroDivisionError)
    && (r.Ok? ==> |r.value| == |links| && forall k :: 0 <= k < |links| ==> LinkRecord(links[k], zoom) == Ok(r.value[k]))
  }

  /** One more link: its record is appended, or its error is the result. */
  lemma LinkRecordsStep(links: seq<Link>, i: int, zoom: real)
    requires 0 <= i < |links| && LinkRecords(links[..i], zoom).Ok?
    ensures LinkRecords(links[..i + 1], zoom) ==
      match LinkRecord(links[i], zoom)
      case Err(e) => Err(e)
      case Ok(v) => Ok(LinkRecords(links[..i], zoom).value + [v])
  {
    assert links[..i + 1][..i] == links[..i];
  }

  /** Once a prefix raises, so does the whole list, with the same error. */
  lemma {:induction false} LinkErrorStops(links: seq<Link>, n: int, zoom: real)
    requires 0 <= n <= |links| && LinkRecords(links[..n], zoom).Err?
    ensures LinkRecords(links, zoom) == LinkRecords(links[..n], zoom)
    decreases |links| - n
  {
    if n < |links| {
      assert links[..n + 1][..n] == links[..n];
      LinkErrorStops(links, n + 1, zoom);
    } else {
      assert links[..n] == links;
    }
  }

  lemma LinkRecordsMeaning(links: seq<Link>, zoom: real)
    ensures LinkRecordsOf(links, zoom, LinkRecords(links, zoom))
  {
    LinkRecordsError(links, zoom);
    LinkRecordsEach(links, zoom);
  }

  /** The records fail exactly when the zoom is 0 and some link has a
      destination. */
  lemma {:induction false} LinkRecordsError(links: seq<Link>, zoom: real)
    ensures LinkRecords(links, zoom).Err? <==> zoom == 0.0 && exists k :: 0 <= k < |links| && links[k].to.Some?
    ensures LinkRecords(links, zoom).Err? ==> LinkRecords(links, zoom).error == ZeroDivisionError
    decreases |links|
  {
    if links != [] {
      var init := links[..|links| - 1];
      LinkRecordsError(init, zoom);
      if exists k :: 0 <= k < |init| && init[k].to.Some? {
        var k :| 0 <= k < |init| && init[k].to.Some?;
        assert links[k] == init[k];
      }
      if exists k :: 0 <= k < |links| && links[k].to.Some? {
        var k :| 0 <= k < |links| && links[k].to.Some?;
        if k < |init| {
          assert init[k] == links[k];
        }
      }
    }
  }

  /** Records that succeed are one per link, each the link's own record. */
  lemma {:induction false} LinkRecordsEach(links: seq<Link>, zoom: real)
    ensures LinkRecords(links, zoom).Ok? ==>
      |LinkRecords(links, zoom).value| == |links|
      && forall k :: 0 <= k < |links| ==> LinkRecord(links[k], zoom) == Ok(LinkRecords(links, zoom).value[k])
    decreases |links|
  {
    if links != [] {
      var init := links[..|links| - 1];
      LinkRecordsEach(init, zoom);
      if LinkRecords(links, zoom).Ok? {
        var views := LinkRecords(init, zoom).value;
        var v := LinkRecord(links[|links| - 1], zoom).value;
        assert LinkRecords(links, zoom).value == views + [v];
        forall k | 0 <= k < |links|
          ensures LinkRecord(links[k], zoom) == Ok((views + [v])[k])
        {
          if k < |init| {
            assert links[k] == init[k];
          }
        }
      }
    }
  }

  // ---- the handler ----

  /** A pymupdf page: what its `annots()` and `get_links()` yield. */
  class Page {
    var annots: seq<Annot>
    var links: seq<Link>

    constructor (annots: seq<Annot>, links: seq<Link>)
      ensures this.annots == annots && this.links == links
    {
      this.annots := annots;
      this.links := links;
    }
  }

  /** pymupdf's `load_page`: while the page number is negative, the page
      count is added to it. */
  function WrapPage(i: int, n: nat): int
    requires n > 0
    decreases if i < 0 then -i else 0
  {
    if i < 0 then WrapPage(i + n, n) else i
  }

  /** Below the page count, the wrap lands on a page of the document, one
      page count away from the page it started from each time round. */
  lemma {:induction false} WrapPageInRange(i: int, n: nat)
    requires n > 0 && i < n
    ensures 0 <= WrapPage(i, n) < n
    ensures i < 0 ==> WrapPage(i, n) == WrapPage(i + n, n)
    decreases if i < 0 then -i else 0
  {
    if i < 0 {
      WrapPageInRange(i + n, n);
    }
  }

  /** `doc[i]` on the handler's document: the initial empty string rejects
      every index; a pymupdf document accepts every page number below its
      page count and loads it through `load_page`. */
  function PageIndex(i: int, n: nat): (r: Option<nat>)
    ensures r.Some? <==> n > 0 && i < n
    ensures r.Some? ==> r.value < n && r.value == WrapPage(i, n)
    ensures r.Some? && 0 <= i ==> r.value == i
  {
    if n == 0 || i >= n then None
    else
      WrapPageInRange(i, n);
      Some(WrapPage(i, n))
  }

  class TextHandler {
    /** The open document's pages; no pages stands for the initial empty
        string, which every index rejects. */
    var pages: seq<Page>
    /** The page last loaded; null stands for the initial 0. */
    var page: Page?
    var currPageIdx: Option<int>
    var currAnnots: seq<Annot>
    var currLinks: seq<Link>
    var articleCache: seq<ArticlePair>
    var delimiters: seq<string>
    var specialCases: seq<string>

    constructor ()
      ensures pages == [] && page == null && currPageIdx == None
      ensures currAnnots == [] && currLinks == []
      ensures articleCache == [] && delimiters == [] && specialCases == []
    {
      pages, page, currPageIdx := [], null, None;
      currAnnots, currLinks := [], [];
      articleCache, delimiters, specialCases := [], [], [];
    }

    /** `assign_document`, given the pages `pymupdf.open` yields. */
    method AssignDocument(doc: seq<Page>)
      modifies this
      ensures pages == doc && page == old(page) && currLinks == old(currLinks) && currAnnots == old(currAnnots)
      ensures currPageIdx == old(currPageIdx)
      ensures articleCache == old(articleCache) && delimiters == old(delimiters) && specialCases == old(specialCases)
    {
      pages := doc;
    }

    /** `get_all_links`: loads the page (IndexError for an index the
        document rejects, with nothing changed), keeps its links, and builds
        one record per link, in order. */
    method GetAllLinks(pageIdx: int, zoomFactor: real) returns (r: Result<seq<LinkView>>)
      modifies this
      ensures pages == old(pages) && currAnnots == old(currAnnots) && currPageIdx == old(currPageIdx)
      ensures articleCache == old(articleCache) && delimiters == old(delimiters) && specialCases == old(specialCases)
      ensures PageIndex(pageIdx, |pages|).None? ==>
        r == Err(IndexError) && page == old(page) && currLinks == old(currLinks)
      ensures PageIndex(pageIdx, |pages|).Some? ==>
        && page == pages[PageIndex(pageIdx, |pages|).value] && currLinks == page.links
        && LinkRecordsOf(currLinks, zoomFactor, r)
    {
      var index := PageIndex(pageIdx, |pages|);
      if index.None? {
        return Err(IndexError);
      }
      var p := pages[index.value];
      page := p;
      currLinks := p.links;
      r := BuildLinkRecords(currLinks, zoomFactor);
    }

    /** The loop of `get_all_links`: the first link with a destination at
        zoom 0 raises ZeroDivisionError; otherwise one record per link. */
    static method BuildLinkRecords(currLinks: seq<Link>, zoomFactor: real) returns (r: Result<seq<LinkView>>)
      ensures LinkRecordsOf(currLinks, zoomFactor, r)
    {
      LinkRecordsMeaning(currLinks, zoomFactor);
      var links: seq<LinkView> := [];
      var i := 0;
      while i < |currLinks|
        invariant 0 <= i <= |currLinks|
        invariant LinkRecords(currLinks[..i], zoomFactor) == Ok(links)
      {
        var linkData := LinkRecord(currLinks[i], zoomFactor);
        LinkRecordsStep(currLinks, i, zoomFactor);
        if linkData.Err? {
          LinkErrorStops(currLinks, i + 1, zoomFactor);
          return Err(linkData.error);
        }
        links := links + [linkData.value];
        i := i + 1;
      }
      assert currLinks[..i] == currLinks;
      return Ok(links);
    }

    /** `get_all_annotations`: records the page index first, loads the page
        (IndexError for an index the document rejects), keeps its
        annotations, and builds one record per annotation, in order. */
    method GetAllAnnotations(pageIdx: int, zoomFactor: real) returns (r: Result<seq<AnnotView>>)
      modifies this
      ensures currPageIdx == Some(pageIdx) && pages == old(pages) && currLinks == old(currLinks)
      ensures articleCache == old(articleCache) && delimiters == old(delimiters) && specialCases == old(specialCases)
      ensures PageIndex(pageIdx, |pages|).None? ==>
        r == Err(IndexError) && page == old(page) && currAnnots == old(currAnnots)
      ensures PageIndex(pageIdx, |pages|).Some? ==>
        && page == pages[PageIndex(pageIdx, |pages|).value] && currAnnots == page.annots
        && r.Ok? && |r.value| == |currAnnots|
        && forall k :: 0 <= k < |currAnnots| ==> r.value[k] == AnnotRecord(currAnnots[k], zoomFactor)
    {
      currPageIdx := Some(pageIdx);
      var index := PageIndex(pageIdx, |pages|);
      if index.None? {
        return Err(IndexError);
      }
      var p := pages[index.value];
      page := p;
      var annotations: seq<AnnotView> := [];
      currAnnots := p.annots;
      for i := 0 to |currAnnots|
        invariant |annotations| == i
        invariant forall k :: 0 <= k < i ==> annotations[k] == AnnotRecord(currAnnots[k], zoomFactor)
      {
        annotations := annotations + [AnnotRecord(currAnnots[i], zoomFactor)];
      }
      return Ok(annotations);
    }

    /** `get_annot_from_idx`: the annotation at that position of the page,
        or None for any other index, negative ones included. */
    method GetAnnotFromIdx(annotIdx: int) returns (r: Result<Option<Annot>>)
      ensures page == null ==> r == Err(AttributeError)
      ensures page != null ==> r == Ok(if 0 <= annotIdx < |page.annots| then Some(page.annots[annotIdx]) else None)
    {
      if page == null {
        return Err(AttributeError);
      }
      var annots := page.annots;
      var idx := 0;
      while idx < |annots|
        invariant 0 <= idx <= |annots|
        invariant annotIdx < 0 || annotIdx >= idx
      {
        if idx == annotIdx {
          return Ok(Some(annots[idx]));
        }
        idx := idx + 1;
      }
      return Ok(None);
    }

    /** `annot_action`: on a missing index nothing happens; otherwise the
        action is applied to the page's annotation list. */
    method AnnotAction(annotIdx: int, action: string, newRect: Option<PyRect>) returns (err: Option<PyError>)
      modifies page
      ensures page == null ==> err == Some(AttributeError)
      ensures page != null ==>
        (err == None && page.links == old(page.links)
         && page.annots == AnnotActionOn(old(page.annots), annotIdx, action, newRect))
    {
      var annot := GetAnnotFromIdx(annotIdx);
      if annot.Err? {
        return Some(annot.error);
      }
      if annot.value.None? {
        return None;
      }
      var a := annot.value.value;
      if action == "delete" {
        page.annots := page.annots[..annotIdx] + page.annots[annotIdx + 1..];
      } else if action == "toggle_type" {
        if a.typeName == "Underline" {
          page.annots := page.annots[annotIdx := a.(typeCode := PdfAnnotHighlight, typeName := "Highlight")];
        } else if a.typeName == "Highlight" {
          page.annots := page.annots[annotIdx := a.(typeCode := PdfAnnotUnderline, typeName := "Underline")];
        }
      } else if action == "update_rect" && newRect.Some? {
        page.annots := page.annots[annotIdx := a.(rect := newRect.value)];
      }
      return None;
    }

    /** `link_action`: indexes the links `get_all_links` kept (IndexError
        when out of range); "delete" removes that link from the page,
        "change" sets its `to` (in the kept list too, which shares the
        dictionary) and writes it back to the page. */
    method LinkAction(linkIdx: int, action: string, newDest: Option<PyPoint>) returns (err: Option<PyError>)
      modifies this, page
      ensures pages == old(pages) && page == old(page) && currAnnots == old(currAnnots)
      ensures currPageIdx == old(currPageIdx)
      ensures articleCache == old(articleCache) && delimiters == old(delimiters) && specialCases == old(specialCases)
      ensures page != null ==> page.annots == old(page.annots)
      ensures PyIndex(linkIdx, |old(currLinks)|).None? ==>
        err == Some(IndexError) && currLinks == old(currLinks) && (page != null ==> page.links == old(page.links))
      ensures PyIndex(linkIdx, |old(currLinks)|).Some? ==>
        var k := PyIndex(linkIdx, |old(currLinks)|).value;
        var link := old(currLinks)[k];
        && (action == "delete" ==>
              currLinks == old(currLinks)
              && (page == null ==> err == Some(AttributeError))
              && (page != null ==> err == None && page.links == DeleteLink(old(page.links), link.xref)))
        && (action == "change" ==>
              currLinks == old(currLinks)[k := link.(to := newDest)]
              && (page == null ==> err == Some(AttributeError))
              && (page != null ==> err == None && page.links == UpdateLink(old(page.links), link.(to := newDest))))
        && (action != "delete" && action != "change" ==>
              err == None && currLinks == old(currLinks) && (page != null ==> page.links == old(page.links)))
    {
      var index := PyIndex(linkIdx, |currLinks|);
      if index.None? {
        return Some(IndexError);
      }
      var k := index.value;
      var link := currLinks[k];
      if action == "delete" {
        if page == null {
          return Some(AttributeError);
        }
        page.links := DeleteLink(page.links, link.xref);
      } else if action == "change" {
        link := link.(to := newDest);
        currLinks := currLinks[k := link];
        if page == null {
          return Some(AttributeError);
        }
        page.links := UpdateLink(page.links, link);
      }
      return None;
    }

    /** `get_config_data`: the three lists the handler holds. */
    function GetConfigData(): (d: ConfigData)
      reads this
      ensures d.articleCache == articleCache && d.specialCases == specialCases && d.delimiters == delimiters
    {
      ConfigData(articleCache, specialCases, delimiters)
    }
  }
}
