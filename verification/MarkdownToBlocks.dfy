/** `convertMarkdownToBlocks` over a parsed tree, with the block list updated in place. */
module MarkdownToBlocks {
  import opened Text
  import opened LessonConversion
  import opened LessonConverter
  import opened LessonBodies
  import InlinePrinter

  function BodiesOf(blocks: seq<Block>): (bs: seq<Body>)
    ensures |bs| == |blocks|
  {
    if blocks == [] then [] else BodiesOf(blocks[..|blocks| - 1]) + [blocks[|blocks| - 1].body]
  }

  /** The splitting loop: a segment grows until a picture ends it. */
  method Split(p: Phrasing) returns (units: seq<Phrasing>)
    ensures units == SplitPhrasing(p)
    decreases p
  {
    hide Wrap;
    if !p.Mark? {
      return [p];
    }
    var name, ps := p.name, p.children;
    units := [];
    var segment: seq<Phrasing> := [];
    var i := 0;
    assert ps[0..] == ps && [] + Segments(name, SplitAll(ps), []) == Segments(name, SplitAll(ps), []);
    while i < |ps|
      invariant 0 <= i <= |ps|
      invariant units + Segments(name, SplitAll(ps[i..]), segment) == Segments(name, SplitAll(ps), [])
    {
      var childUnits := Split(ps[i]);
      assert ps[i..][1..] == ps[i + 1..];
      ghost var later := SplitAll(ps[i + 1..]);
      assert childUnits[0..] == childUnits;
      var j := 0;
      while j < |childUnits|
        invariant 0 <= j <= |childUnits|
        invariant units + Segments(name, childUnits[j..] + later, segment) == Segments(name, SplitAll(ps), [])
      {
        SegmentsTurn(name, childUnits, j, later, segment, units);
        if childUnits[j].Picture? {
          units := units + Wrap(name, segment) + [childUnits[j]];
          segment := [];
        } else {
          segment := segment + [childUnits[j]];
        }
        j := j + 1;
      }
      assert childUnits[j..] + later == later;
      i := i + 1;
    }
    units := units + Wrap(name, segment);
  }

  lemma SegmentsTurn(name: string, cs: seq<Phrasing>, j: nat, later: seq<Phrasing>, segment: seq<Phrasing>,
      units: seq<Phrasing>)
    requires j < |cs|
    ensures units + Segments(name, cs[j..] + later, segment)
         == if cs[j].Picture? then units + Wrap(name, segment) + [cs[j]] + Segments(name, cs[j + 1..] + later, [])
            else units + Segments(name, cs[j + 1..] + later, segment + [cs[j]])
  {
    hide Wrap;
    var us := cs[j..] + later;
    assert us[0] == cs[j] && us[1..] == cs[j + 1..] + later;
    if cs[j].Picture? {
      var w, rest := Wrap(name, segment), Segments(name, us[1..], []);
      assert units + (w + [cs[j]] + rest) == units + w + [cs[j]] + rest;
    }
  }

  // ----- tables -----

  function CellTexts(cells: seq<seq<Phrasing>>, pr: Printers): seq<string> {
    if cells == [] then [] else [Trim(RenderAll(cells[0], pr))] + CellTexts(cells[1..], pr)
  }

  function RowTexts(rows: seq<seq<seq<Phrasing>>>, pr: Printers): seq<seq<string>> {
    if rows == [] then [] else [CellTexts(rows[0], pr)] + RowTexts(rows[1..], pr)
  }

  /** The first row names the columns. */
  function TableBody(rows: seq<seq<seq<Phrasing>>>, pr: Printers): Body {
    if rows == [] then TableBlock([], [])
    else TableBlock(CellTexts(rows[0], pr), RowTexts(rows[1..], pr))
  }

  /** The printer turns an image that is left in running text into its alternative text. */
  ghost predicate PrintsAlt(pr: Printers) {
    forall image: Image :: pr.render(Picture(image)) == InlinePrinter.Escape(image.alt)
  }

  predicate HasCell(b: Body, i: nat, j: nat) {
    b.TableBlock? && (if i == 0 then j < |b.columns| else i <= |b.rows| && j < |b.rows[i - 1]|)
  }

  function CellOf(b: Body, i: nat, j: nat): string
    requires HasCell(b, i, j)
  {
    if i == 0 then b.columns[j] else b.rows[i - 1][j]
  }

  lemma {:induction false} CellAt(cells: seq<seq<Phrasing>>, pr: Printers, j: nat)
    requires j < |cells|
    ensures |CellTexts(cells, pr)| == |cells| && CellTexts(cells, pr)[j] == Trim(RenderAll(cells[j], pr))
  {
    hide Trim, RenderAll;
    if |cells| > 1 {
      CellAt(cells[1..], pr, if j > 0 then j - 1 else 0);
    }
  }

  lemma {:induction false} RowAt(rows: seq<seq<seq<Phrasing>>>, pr: Printers, i: nat)
    requires i < |rows|
    ensures |RowTexts(rows, pr)| == |rows| && RowTexts(rows, pr)[i] == CellTexts(rows[i], pr)
  {
    hide CellTexts;
    if |rows| > 1 {
      RowAt(rows[1..], pr, if i > 0 then i - 1 else 0);
    }
  }

  /** The first row of a table names its columns, the others are its rows; each cell is the
      trimmed text of its nodes, images included. */
  lemma TableIsPrinted(rows: seq<seq<seq<Phrasing>>>, pr: Printers, i: nat, j: nat)
    requires i < |rows| && j < |rows[i]|
    ensures HasCell(TableBody(rows, pr), i, j) && CellOf(TableBody(rows, pr), i, j) == Trim(RenderAll(rows[i][j], pr))
    ensures |TableBody(rows, pr).rows| == |rows| - 1 && |TableBody(rows, pr).columns| == |rows[0]|
    ensures i > 0 ==> |TableBody(rows, pr).rows[i - 1]| == |rows[i]|
  {
    hide Trim, RenderAll;
    CellAt(rows[i], pr, j);
    if rows[0] != [] {
      CellAt(rows[0], pr, 0);
    }
    if |rows| > 1 {
      RowAt(rows[1..], pr, if i > 0 then i - 1 else 0);
    }
  }

  /** An image in a table cell leaves its alternative text in its place, between what the
      nodes before and after it show; the image itself follows the table. */
  lemma CellKeepsAlt(rows: seq<seq<seq<Phrasing>>>, pr: Printers, i: nat, j: nat, k: nat)
    requires PrintsAlt(pr) && i < |rows| && j < |rows[i]| && k < |rows[i][j]| && rows[i][j][k].Picture?
    ensures var cell := rows[i][j];
            && HasCell(TableBody(rows, pr), i, j)
            && TextPieces(CellOf(TableBody(rows, pr), i, j)) ==
                 TextPieces(RenderAll(cell[..k], pr))
                 + TextPieces(InlinePrinter.Escape(cell[k].image.alt)) + TextPieces(RenderAll(cell[k + 1..], pr))
            && cell[k].image in RowImages(rows)
  {
    hide TextPieces, Trim, InlinePrinter.Escape;
    var cell := rows[i][j];
    TableIsPrinted(rows, pr, i, j);
    assert cell == cell[..k] + cell[k..] && cell[k..] == [cell[k]] + cell[k + 1..];
    RenderConcat(cell[..k], cell[k..], pr);
    var alt := InlinePrinter.Escape(cell[k].image.alt);
    assert RenderAll(cell[k..], pr) == alt + RenderAll(cell[k + 1..], pr);
    TextPiecesTrim(RenderAll(cell, pr));
    TextPiecesConcat(RenderAll(cell[..k], pr), alt + RenderAll(cell[k + 1..], pr));
    TextPiecesConcat(alt, RenderAll(cell[k + 1..], pr));
    var head, rest := TextPieces(RenderAll(cell[..k], pr)), TextPieces(RenderAll(cell[k + 1..], pr));
    assert head + (TextPieces(alt) + rest) == head + TextPieces(alt) + rest;
    CellIsInRows(rows, i, j);
    PictureIsInCell(cell, k);
  }

  lemma {:induction false} PictureIsInCell(ps: seq<Phrasing>, k: nat)
    requires k < |ps| && ps[k].Picture?
    ensures ps[k].image in ImagesIn(ps)
  {
    if k > 0 {
      PictureIsInCell(ps[1..], k - 1);
    }
  }

  lemma {:induction false} CellIsInRow(cells: seq<seq<Phrasing>>, j: nat)
    requires j < |cells|
    ensures forall image <- ImagesIn(cells[j]) :: image in CellImages(cells)
  {
    hide ImagesIn;
    if j > 0 {
      CellIsInRow(cells[1..], j - 1);
    }
  }

  lemma {:induction false} CellIsInRows(rows: seq<seq<seq<Phrasing>>>, i: nat, j: nat)
    requires i < |rows| && j < |rows[i]|
    ensures forall image <- ImagesIn(rows[i][j]) :: image in RowImages(rows)
  {
    hide ImagesIn, CellImages;
    if i > 0 {
      CellIsInRows(rows[1..], i - 1, j);
    } else {
      CellIsInRow(rows[0], j);
    }
  }

  // ----- one node, the whole tree -----

  /** The level of a heading; first-level headings are dropped. */
  function HeadingIfAny(depth: nat, text: string): seq<Body> {
    if depth == 1 then [] else [HeadingBlock(if depth == 2 then 2 else 3, text)]
  }

  /** The blocks of one top-level node. */
  function NodeBodies(f: Flow, assets: map<string, string>, pr: Printers): seq<Body> {
    match f
    case Heading(depth, ps) => HeadingIfAny(depth, Trim(Inline(ps, pr))) + ImageBodies(assets, ImagesIn(ps), false)
    case ThematicBreak => [Divider]
    case Code(lang, value) => [CodeBlock(lang in TERMINAL_LANGUAGES, value, lang)]
    case Table(rows) => [TableBody(rows, pr)] + ImageBodies(assets, RowImages(rows), true)
    case List(ordered, items) => ListBodies(ListItems(items, pr), ordered, [], assets)
    case Paragraph(ps) => ParagraphBodies(SplitAll(ps), [], assets, pr)
    case Blockquote(fs) => QuoteBodies(FlowUnits(fs, 0, pr), "", assets)
    case Definition => []
    case Html(value) => TextIfSeen(Trim(pr.strip(value)))
    case Other(text) => [TextBlock(if Trim(text) != "" then Trim(text) else UNMAPPED_TEXT)]
  }

  function TreeBodies(fs: seq<Flow>, assets: map<string, string>, pr: Printers): seq<Body> {
    if fs == [] then [] else NodeBodies(fs[0], assets, pr) + TreeBodies(fs[1..], assets, pr)
  }

  /** The first-level headings, which are dropped. */
  function TitleIfAny(f: Flow, pr: Printers): seq<string> {
    if f.Heading? && f.depth == 1 then [Trim(Inline(f.phrasing, pr))] else []
  }

  function Titles(fs: seq<Flow>, pr: Printers): seq<string> {
    if fs == [] then [] else TitleIfAny(fs[0], pr) + Titles(fs[1..], pr)
  }

  /** Each node becomes its own blocks, whatever surrounds it. */
  lemma {:induction false} TreeConcat(a: seq<Flow>, b: seq<Flow>, assets: map<string, string>, pr: Printers)
    ensures TreeBodies(a + b, assets, pr) == TreeBodies(a, assets, pr) + TreeBodies(b, assets, pr)
    ensures Titles(a + b, pr) == Titles(a, pr) + Titles(b, pr)
    decreases |a|
  {
    hide NodeBodies, TitleIfAny;
    if a == [] {
      assert a + b == b;
    } else {
      assert (a + b)[1..] == a[1..] + b;
      TreeConcat(a[1..], b, assets, pr);
    }
  }

  lemma {:induction false} ImageBodiesImages(assets: map<string, string>, images: seq<Image>, altRetained: bool)
    ensures BodyImages(ImageBodies(assets, images, altRetained)) == images
    decreases |images|
  {
    hide ImageBody;
    if images != [] {
      ImageBodiesImages(assets, images[1..], altRetained);
      ImageBodyShows(assets, images[0], altRetained);
    }
  }

  lemma AfterOne(b: seq<Body>, images: seq<Body>)
    requires |b| <= 1 && forall x <- b :: !ForImage(x)
    ensures BodyImages(b + images) == BodyImages(images)
  {
    BodyPiecesConcat(b, images);
  }

  /** Paragraphs, quotes and lists show all that their content shows, in order. */
  lemma NodeShows(f: Flow, assets: map<string, string>, pr: Printers)
    requires f.Paragraph? || f.List? || f.Blockquote?
    ensures BodyPieces(NodeBodies(f, assets, pr)) == UnitPieces(ContentUnits(f, pr))
  {
    hide TextPieces, BodyPieces, UnitPieces, ListBodies, ParagraphBodies, QuoteBodies, FlowUnits, ItemUnits, Inline;
    NothingShown();
    match f
    case Paragraph(ps) =>
      ParagraphShows(SplitAll(ps), [], assets, pr);
      NoInline(pr);
    case Blockquote(fs) => QuoteShows(FlowUnits(fs, 0, pr), "", assets);
    case List(ordered, items) =>
      ListShows(ListItems(items, pr), ordered, [], assets);
      ListItemsShow(items, 0, pr);
      NoItems();
  }

  /** Every image of a node becomes exactly one block, in reading order. */
  lemma NodeKeepsImages(f: Flow, assets: map<string, string>, pr: Printers)
    ensures BodyImages(NodeBodies(f, assets, pr)) == NestedImages(f)
  {
    hide BodyPieces, UnitPieces, ContentUnits, ImagesIn, RowImages, ImageBodies, Trim, Inline, ItemImages, FlowImages;
    hide ParagraphBodies, QuoteBodies, ListBodies, TableBody;
    if f.Paragraph? || f.List? || f.Blockquote? {
      hide NodeBodies, NestedImages;
      NodeShows(f, assets, pr);
      BodyPieceImages(NodeBodies(f, assets, pr));
      UnitPieceImages(ContentUnits(f, pr));
      ContentUnitsKeepImages(f, pr);
    } else if f.Heading? {
      ImageBodiesImages(assets, ImagesIn(f.phrasing), false);
      AfterOne(HeadingIfAny(f.depth, Trim(Inline(f.phrasing, pr))), ImageBodies(assets, ImagesIn(f.phrasing), false));
    } else if f.Table? {
      ImageBodiesImages(assets, RowImages(f.rows), true);
      TableIsTable(f.rows, pr);
      AfterOne([TableBody(f.rows, pr)], ImageBodies(assets, RowImages(f.rows), true));
    }
  }

  lemma TableIsTable(rows: seq<seq<seq<Phrasing>>>, pr: Printers)
    ensures TableBody(rows, pr).TableBlock?
  {
  }

  lemma {:induction false} TreeKeepsImages(fs: seq<Flow>, assets: map<string, string>, pr: Printers)
    ensures BodyImages(TreeBodies(fs, assets, pr)) == FlowImages(fs)
    decreases |fs|
  {
    hide NodeBodies, NestedImages;
    if fs != [] {
      NodeKeepsImages(fs[0], assets, pr);
      TreeKeepsImages(fs[1..], assets, pr);
      BodyPiecesConcat(NodeBodies(fs[0], assets, pr), TreeBodies(fs[1..], assets, pr));
    }
  }

  /** What the remaining nodes become.  Headings of the first level are dropped and reported,
      the second level stays, and all deeper ones are of the third; code of a shell is a
      terminal; tags alone become nothing and unknown nodes something. */
  lemma PlainNodes(f: Flow, assets: map<string, string>, pr: Printers)
    ensures f.Heading? ==>
              var text := Trim(Inline(f.phrasing, pr)); var images := ImageBodies(assets, ImagesIn(f.phrasing), false);
              && Titles([f], pr) == (if f.depth == 1 then [text] else [])
              && (f.depth == 1 ==> NodeBodies(f, assets, pr) == images)
              && (f.depth == 2 ==> NodeBodies(f, assets, pr) == [HeadingBlock(2, text)] + images)
              && (f.depth != 1 && f.depth != 2 ==> NodeBodies(f, assets, pr) == [HeadingBlock(3, text)] + images)
    ensures f.Table? ==> NodeBodies(f, assets, pr) == [TableBody(f.rows, pr)] + ImageBodies(assets, RowImages(f.rows), true)
    ensures f.Code? ==>
              NodeBodies(f, assets, pr) ==
              [CodeBlock(f.lang == "bash" || f.lang == "sh" || f.lang == "shell" || f.lang == "console" || f.lang == "zsh", f.value, f.lang)]
    ensures f.ThematicBreak? ==> NodeBodies(f, assets, pr) == [Divider]
    ensures f.Definition? ==> NodeBodies(f, assets, pr) == []
    ensures f.Html? ==>
              var text := Trim(pr.strip(f.value)); NodeBodies(f, assets, pr) == if text == "" then [] else [TextBlock(text)]
    ensures f.Other? ==>
              exists text :: NodeBodies(f, assets, pr) == [TextBlock(text)] && text != "" && (Trim(f.text) != "" ==> text == Trim(f.text))
    ensures !f.Heading? ==> Titles([f], pr) == []
  {
    hide Trim, Inline, ImageBodies, TableBody, RowImages, ImagesIn;
    assert [f][1..] == [];
    if f.Html? {
      TrimTwice(pr.strip(f.value));
    } else if f.Other? {
      assert NodeBodies(f, assets, pr) == [TextBlock(if Trim(f.text) != "" then Trim(f.text) else UNMAPPED_TEXT)];
    } else if f.Heading? && f.depth == 1 {
      assert [] + ImageBodies(assets, ImagesIn(f.phrasing), false) == ImageBodies(assets, ImagesIn(f.phrasing), false);
    }
  }

  // ----- the loops -----

  class Converter {
    const assets: map<string, string>
    const pr: Printers
    var blocks: seq<Block>
    var dropped: seq<string>

    /** Blocks are numbered in order. */
    ghost predicate Valid()
      reads this
    {
      forall i | 0 <= i < |blocks| :: blocks[i].id == BlockId(i + 1)
    }

    constructor (assets: map<string, string>, pr: Printers)
      ensures Valid() && blocks == [] && dropped == [] && this.assets == assets && this.pr == pr
    {
      this.assets, this.pr := assets, pr;
      blocks, dropped := [], [];
    }

    method Append(body: Body)
      requires Valid()
      modifies this`blocks
      ensures Valid() && blocks == old(blocks) + [Block(BlockId(|old(blocks)| + 1), body)]
      ensures BodiesOf(blocks) == old(BodiesOf(blocks)) + [body]
    {
      hide BlockId;
      var id := BlockId(|blocks| + 1);
      blocks := blocks + [Block(id, body)];
      assert blocks[..|blocks| - 1] == old(blocks);
    }

    method AppendImage(image: Image, altRetained: bool)
      requires Valid()
      modifies this`blocks
      ensures Valid() && BodiesOf(blocks) == old(BodiesOf(blocks)) + [ImageBody(assets, image, altRetained)]
    {
      var alt := if image.alt != "" then image.alt else image.file;
      var assetId := if image.file in assets then assets[image.file] else "";
      if assetId == "" {
        var tag := "[" + MISSING_LABEL + image.file + "]";
        Append(MissingImage(tag + (if alt != "" && !altRetained then " " + alt else ""), image));
      } else {
        Append(ImageBlock(assetId, alt, image));
      }
    }

    method AppendImages(images: seq<Image>, altRetained: bool)
      requires Valid()
      modifies this`blocks
      ensures Valid() && BodiesOf(blocks) == old(BodiesOf(blocks)) + ImageBodies(assets, images, altRetained)
    {
      hide ImageBody;
      var i := 0;
      assert images[0..] == images;
      while i < |images|
        invariant 0 <= i <= |images| && Valid()
        invariant BodiesOf(blocks) + ImageBodies(assets, images[i..], altRetained)
               == old(BodiesOf(blocks)) + ImageBodies(assets, images, altRetained)
      {
        ghost var before := BodiesOf(blocks);
        AppendImage(images[i], altRetained);
        assert images[i..][1..] == images[i + 1..];
        ghost var rest := ImageBodies(assets, images[i + 1..], altRetained);
        assert before + ([ImageBody(assets, images[i], altRetained)] + rest)
            == before + [ImageBody(assets, images[i], altRetained)] + rest;
        i := i + 1;
      }
    }

    /** Headings lose their images to the blocks after them; a first-level heading is
        dropped, its images are not. */
    method ConvertHeading(depth: nat, ps: seq<Phrasing>)
      requires Valid()
      modifies this
      ensures Valid() && BodiesOf(blocks) == old(BodiesOf(blocks)) + NodeBodies(Heading(depth, ps), assets, pr)
      ensures dropped == old(dropped) + TitleIfAny(Heading(depth, ps), pr)
    {
      hide Trim, Inline, ImageBody, BodiesOf, ImageBodies, ImagesIn;
      var text := Trim(Inline(ps, pr));
      if depth == 1 {
        dropped := dropped + [text];
      } else {
        Append(HeadingBlock(if depth == 2 then 2 else 3, text));
      }
      AppendImages(ImagesIn(ps), false);
    }

    /** Text between images becomes paragraphs. */
    method ConvertParagraph(ps: seq<Phrasing>)
      requires Valid()
      modifies this`blocks
      ensures Valid() && BodiesOf(blocks) == old(BodiesOf(blocks)) + NodeBodies(Paragraph(ps), assets, pr)
    {
      hide Trim, Inline, ImageBody, BodiesOf, TextIfSeen;
      var phrasing: seq<Phrasing> := [];
      var units := SplitAll(ps);
      var i := 0;
      assert units[0..] == units;
      while i < |units|
        invariant 0 <= i <= |units| && Valid()
        invariant BodiesOf(blocks) + ParagraphBodies(units[i..], phrasing, assets, pr)
               == old(BodiesOf(blocks)) + ParagraphBodies(units, [], assets, pr)
      {
        var unit := units[i];
        assert units[i..][1..] == units[i + 1..];
        if unit.Picture? {
          ghost var before, rest := BodiesOf(blocks), ParagraphBodies(units[i + 1..], [], assets, pr);
          FlushParagraph(phrasing, true);
          Assoc3(before, TextIfSeen(Inline(phrasing, pr)), ImageBody(assets, unit.image, false), rest);
          phrasing := [];
          AppendImage(unit.image, false);
        } else {
          phrasing := phrasing + [unit];
        }
        i := i + 1;
      }
      FlushParagraph(phrasing, false);
    }

    method FlushParagraph(phrasing: seq<Phrasing>, keepWhitespace: bool)
      requires Valid()
      modifies this`blocks
      ensures Valid()
      ensures BodiesOf(blocks) == old(BodiesOf(blocks))
                                  + TextIfSeen(if keepWhitespace then Inline(phrasing, pr) else Trim(Inline(phrasing, pr)))
    {
      hide Trim, Inline, BodiesOf;
      var inlineText := Inline(phrasing, pr);
      var text := if keepWhitespace then inlineText else Trim(inlineText);
      if Trim(text) != "" {
        Append(TextBlock(text));
      }
    }

    /** The text between images, as a callout. */
    method FlushCallout(body: string)
      requires Valid()
      modifies this`blocks
      ensures Valid() && BodiesOf(blocks) == old(BodiesOf(blocks)) + CalloutIfAny(body)
    {
      hide Trim, BodiesOf;
      var text := Trim(body);
      if text != "" {
        Append(Callout(text));
      }
    }

    method ConvertBlockquote(fs: seq<Flow>)
      requires Valid()
      modifies this`blocks
      ensures Valid() && BodiesOf(blocks) == old(BodiesOf(blocks)) + NodeBodies(Blockquote(fs), assets, pr)
    {
      hide ImageBody, BodiesOf, CalloutIfAny, FlowUnits;
      var body := "";
      var units := FlowUnits(fs, 0, pr);
      var i := 0;
      assert units[0..] == units;
      while i < |units|
        invariant 0 <= i <= |units| && Valid()
        invariant BodiesOf(blocks) + QuoteBodies(units[i..], body, assets)
               == old(BodiesOf(blocks)) + QuoteBodies(units, "", assets)
      {
        assert units[i..][1..] == units[i + 1..];
        match units[i] {
          case ImageUnit(image) =>
            ghost var before, rest := BodiesOf(blocks), QuoteBodies(units[i + 1..], "", assets);
            FlushCallout(body);
            Assoc3(before, CalloutIfAny(body), ImageBody(assets, image, false), rest);
            body := "";
            AppendImage(image, false);
          case TextUnit(text) =>
            body := body + text;
        }
        i := i + 1;
      }
      FlushCallout(body);
    }

    // ----- lists -----

    /** A paragraph of a list item: its text between images becomes items. */
    method AddParagraph(ps: seq<Phrasing>, before: seq<Unit>) returns (units: seq<Unit>)
      ensures units == before + ParagraphItems(PhrasingUnits(ps, pr), "")
    {
      hide ItemIfAny, PhrasingUnits;
      units := before;
      var text := "";
      var us := PhrasingUnits(ps, pr);
      var i := 0;
      assert us[0..] == us;
      while i < |us|
        invariant 0 <= i <= |us|
        invariant units + ParagraphItems(us[i..], text) == before + ParagraphItems(us, "")
      {
        assert us[i..][1..] == us[i + 1..];
        if us[i].ImageUnit? {
          var flushed := FlushText(text, units);
          AssocUnits(units, ItemIfAny(text), us[i], ParagraphItems(us[i + 1..], ""));
          units := flushed + [us[i]];
          text := "";
        } else {
          text := text + us[i].text;
        }
        i := i + 1;
      }
      units := FlushText(text, units);
    }

    method FlushText(text: string, before: seq<Unit>) returns (units: seq<Unit>)
      ensures units == before + ItemIfAny(text)
    {
      hide Trim;
      units := before;
      if Trim(text) != "" {
        units := units + [TextUnit(Trim(text))];
      }
    }

    method VisitItem(item: Item, before: seq<Unit>) returns (units: seq<Unit>)
      ensures units == before + FlowItems(item.flow, pr)
      decreases item
    {
      hide PhrasingUnits, ContentUnits, ParagraphItems, EachItem, ListItems;
      units := before;
      var i := 0;
      var fs := item.flow;
      assert fs[0..] == fs;
      while i < |fs|
        invariant 0 <= i <= |fs|
        invariant units + FlowItems(fs[i..], pr) == before + FlowItems(fs, pr)
      {
        var child := fs[i];
        assert fs[i..][1..] == fs[i + 1..];
        AssocTwo(units, ChildItems(child, pr), FlowItems(fs[i + 1..], pr));
        if child.List? {
          units := VisitItems(child.items, units);
        } else if child.Paragraph? {
          units := AddParagraph(child.phrasing, units);
        } else {
          units := AddUnits(ContentUnits(child, pr), units);
        }
        i := i + 1;
      }
    }

    method VisitItems(items: seq<Item>, before: seq<Unit>) returns (units: seq<Unit>)
      ensures units == before + ListItems(items, pr)
      decreases items
    {
      hide FlowItems;
      units := before;
      var i := 0;
      assert items[0..] == items;
      while i < |items|
        invariant 0 <= i <= |items|
        invariant units + ListItems(items[i..], pr) == before + ListItems(items, pr)
      {
        assert items[i..][1..] == items[i + 1..];
        AssocTwo(units, FlowItems(items[i].flow, pr), ListItems(items[i + 1..], pr));
        units := VisitItem(items[i], units);
        i := i + 1;
      }
    }

    /** Other content of an item: each text unit that is not blank is an item. */
    method AddUnits(us: seq<Unit>, before: seq<Unit>) returns (units: seq<Unit>)
      ensures units == before + EachItem(us)
    {
      hide ItemIfAny;
      units := before;
      var i := 0;
      assert us[0..] == us;
      while i < |us|
        invariant 0 <= i <= |us|
        invariant units + EachItem(us[i..]) == before + EachItem(us)
      {
        assert us[i..][1..] == us[i + 1..];
        if us[i].ImageUnit? {
          AssocTwo(units, [us[i]], EachItem(us[i + 1..]));
          units := units + [us[i]];
        } else {
          AssocTwo(units, ItemIfAny(us[i].text), EachItem(us[i + 1..]));
          units := FlushText(us[i].text, units);
        }
        i := i + 1;
      }
    }

    /** The items between images, as one list block. */
    method FlushItems(ordered: bool, items: seq<string>)
      requires Valid()
      modifies this`blocks
      ensures Valid() && BodiesOf(blocks) == old(BodiesOf(blocks)) + ListIfAny(ordered, items)
    {
      hide BodiesOf;
      if items != [] {
        Append(ListBlock(ordered, items));
      }
    }

    /** An image ends the list so far and takes its own block. */
    method EmitImage(ordered: bool, items: seq<string>, image: Image)
      requires Valid()
      modifies this`blocks
      ensures Valid()
      ensures BodiesOf(blocks) == old(BodiesOf(blocks)) + (ListIfAny(ordered, items) + [ImageBody(assets, image, false)])
    {
      hide ImageBody, BodiesOf, ListIfAny;
      ghost var before := BodiesOf(blocks);
      FlushItems(ordered, items);
      AppendImage(image, false);
      AssocBodies(before, ListIfAny(ordered, items), [ImageBody(assets, image, false)]);
    }

    method EmitUnits(ordered: bool, units: seq<Unit>)
      requires Valid()
      modifies this`blocks
      ensures Valid() && BodiesOf(blocks) == old(BodiesOf(blocks)) + ListBodies(units, ordered, [], assets)
    {
      hide ImageBody, BodiesOf, ListIfAny, ListBodies;
      var items: seq<string> := [];
      var i := 0;
      assert units[0..] == units;
      while i < |units|
        invariant 0 <= i <= |units| && Valid()
        invariant BodiesOf(blocks) + ListBodies(units[i..], ordered, items, assets)
               == old(BodiesOf(blocks)) + ListBodies(units, ordered, [], assets)
      {
        assert units[i..][1..] == units[i + 1..];
        ListTurn(units[i..], ordered, items, assets);
        match units[i] {
          case ImageUnit(image) =>
            AssocBodies(BodiesOf(blocks), ListIfAny(ordered, items) + [ImageBody(assets, image, false)],
                        ListBodies(units[i + 1..], ordered, [], assets));
            EmitImage(ordered, items, image);
            items := [];
          case TextUnit(text) =>
            items := items + [text];
        }
        i := i + 1;
      }
      ListTurn([], ordered, items, assets);
      FlushItems(ordered, items);
    }

    method ConvertList(ordered: bool, listItems: seq<Item>)
      requires Valid()
      modifies this`blocks
      ensures Valid() && BodiesOf(blocks) == old(BodiesOf(blocks)) + NodeBodies(List(ordered, listItems), assets, pr)
    {
      hide BodiesOf, ListItems, ListBodies;
      var units := VisitItems(listItems, []);
      assert [] + ListItems(listItems, pr) == ListItems(listItems, pr);
      EmitUnits(ordered, units);
    }

    // ----- tables and the rest -----

    method ConvertTable(rows: seq<seq<seq<Phrasing>>>)
      requires Valid()
      modifies this`blocks
      ensures Valid() && BodiesOf(blocks) == old(BodiesOf(blocks)) + NodeBodies(Table(rows), assets, pr)
    {
      hide BodiesOf, ImageBody, RowImages, TableBody, ImageBodies;
      Append(TableBody(rows, pr));
      AppendImages(RowImages(rows), true);
    }

    /** One top-level node. */
    method ConvertNode(f: Flow)
      requires Valid()
      modifies this
      ensures Valid() && BodiesOf(blocks) == old(BodiesOf(blocks)) + NodeBodies(f, assets, pr)
      ensures dropped == old(dropped) + TitleIfAny(f, pr)
    {
      hide BodiesOf, Trim, Inline;
      match f {
        case Heading(depth, ps) => ConvertHeading(depth, ps); return;
        case ThematicBreak => AppendOne(Divider, f);
        case Code(lang, value) => AppendOne(CodeBlock(lang in TERMINAL_LANGUAGES, value, lang), f);
        case Table(rows) => ConvertTable(rows);
        case List(ordered, items) => ConvertList(ordered, items);
        case Paragraph(ps) => ConvertParagraph(ps);
        case Blockquote(fs) => ConvertBlockquote(fs);
        case Definition =>
        case Html(value) =>
          var text := Trim(pr.strip(value));
          TrimTwice(pr.strip(value));
          if text != "" {
            AppendOne(TextBlock(text), f);
          }
        case Other(source) =>
          var text := Trim(source);
          AppendOne(TextBlock(if text != "" then text else UNMAPPED_TEXT), f);
      }
      assert dropped + [] == dropped;
    }

    /** A node that becomes one block. */
    method AppendOne(body: Body, f: Flow)
      requires Valid() && NodeBodies(f, assets, pr) == [body]
      modifies this`blocks
      ensures Valid() && BodiesOf(blocks) == old(BodiesOf(blocks)) + NodeBodies(f, assets, pr)
    {
      hide BodiesOf, NodeBodies;
      Append(body);
    }

    /** The whole tree.  Every image of every heading, paragraph, list, blockquote and
        table becomes exactly one block, in reading order, and no two blocks share an id. */
    method Convert(tree: seq<Flow>)
      requires Valid() && blocks == [] && dropped == []
      modifies this
      ensures Valid() && BodiesOf(blocks) == TreeBodies(tree, assets, pr) && dropped == Titles(tree, pr)
      ensures BodyImages(BodiesOf(blocks)) == FlowImages(tree)
      ensures forall i, j | 0 <= i < j < |blocks| :: blocks[i].id != blocks[j].id
    {
      hide BodyImages, NodeBodies, TitleIfAny, BodiesOf, BlockId, FlowImages;
      var i := 0;
      assert tree[0..] == tree && [] + TreeBodies(tree, assets, pr) == TreeBodies(tree, assets, pr);
      assert BodiesOf([]) == [] by { NoBodies(); }
      while i < |tree|
        invariant 0 <= i <= |tree| && Valid()
        invariant BodiesOf(blocks) + TreeBodies(tree[i..], assets, pr) == TreeBodies(tree, assets, pr)
        invariant dropped + Titles(tree[i..], pr) == Titles(tree, pr)
      {
        assert tree[i..][1..] == tree[i + 1..];
        AssocBodies(BodiesOf(blocks), NodeBodies(tree[i], assets, pr), TreeBodies(tree[i + 1..], assets, pr));
        ConvertNode(tree[i]);
        i := i + 1;
      }
      TreeKeepsImages(tree, assets, pr);
      forall i, j | 0 <= i < j < |blocks| ensures blocks[i].id != blocks[j].id {
        BlockIdsDiffer(i + 1, j + 1);
      }
    }
  }

  lemma ListTurn(us: seq<Unit>, ordered: bool, items: seq<string>, assets: map<string, string>)
    ensures ListBodies(us, ordered, items, assets) ==
            if us == [] then ListIfAny(ordered, items)
            else if us[0].ImageUnit? then
              ListIfAny(ordered, items) + [ImageBody(assets, us[0].image, false)] + ListBodies(us[1..], ordered, [], assets)
            else ListBodies(us[1..], ordered, items + [us[0].text], assets)
  {
    hide ImageBody, ListIfAny;
  }

  lemma NoBodies()
    ensures BodiesOf([]) == []
  {
  }

  lemma Assoc3(a: seq<Body>, b: seq<Body>, c: Body, d: seq<Body>)
    ensures a + (b + [c] + d) == (a + b) + [c] + d
  {
  }

  lemma AssocBodies(a: seq<Body>, b: seq<Body>, c: seq<Body>)
    ensures a + (b + c) == a + b + c
  {
  }

  lemma AssocUnits(a: seq<Unit>, b: seq<Unit>, c: Unit, d: seq<Unit>)
    ensures a + (b + [c] + d) == (a + b) + [c] + d
  {
  }

  lemma AssocTwo(a: seq<Unit>, b: seq<Unit>, c: seq<Unit>)
    ensures a + (b + c) == a + b + c
  {
  }
}
