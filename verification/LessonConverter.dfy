/** The conversion loop: one method per kind of top-level node, appending blocks. */
module LessonConverter {
  import opened Text
  import opened LessonConversion

  /** Blocks.  A block that stands for an image remembers which one. */
  datatype Body =
    | HeadingBlock(level: nat, text: string)
    | TextBlock(text: string)
    | ListBlock(ordered: bool, items: seq<string>)
    | Callout(text: string)
    | CodeBlock(terminal: bool, code: string, lang: string)
    | TableBlock(columns: seq<string>, rows: seq<seq<string>>)
    | Divider
    | ImageBlock(assetId: string, alt: string, image: Image)
    | MissingImage(text: string, image: Image)

  datatype Block = Block(id: string, body: Body)

  const MISSING_LABEL := "\U{56FE}\U{7247}\U{7F3A}\U{5931}\U{FF1A}"
  const UNMAPPED_TEXT := "\U{FF08}\U{672A}\U{6620}\U{5C04}\U{5185}\U{5BB9}\U{FF09}"
  const TERMINAL_LANGUAGES := {"bash", "sh", "shell", "console", "zsh"}

  // ----- block ids -----

  function BlockId(n: nat): string {
    "b-" + PadStart(Decimal(n), 3)
  }

  lemma BlockIdsDiffer(m: nat, n: nat)
    ensures BlockId(m) == BlockId(n) <==> m == n
  {
    ValueOfDecimal(m);
    ValueOfDecimal(n);
    ValueOfPadded(Decimal(m), 3);
    ValueOfPadded(Decimal(n), 3);
    assert BlockId(m)[2..] == PadStart(Decimal(m), 3) && BlockId(n)[2..] == PadStart(Decimal(n), 3);
  }

  // ----- image blocks -----

  function ImageBody(assets: map<string, string>, image: Image, altRetained: bool): Body {
    var alt := if image.alt != "" then image.alt else image.file;
    if image.file in assets && assets[image.file] != "" then
      ImageBlock(assets[image.file], alt, image)
    else
      MissingImage("[" + MISSING_LABEL + image.file + "]"
                   + (if alt != "" && !altRetained then " " + alt else ""), image)
  }

  function ImageBodies(assets: map<string, string>, images: seq<Image>, altRetained: bool): seq<Body> {
    if images == [] then []
    else [ImageBody(assets, images[0], altRetained)] + ImageBodies(assets, images[1..], altRetained)
  }

  predicate ForImage(b: Body) {
    b.ImageBlock? || b.MissingImage?
  }

  function BodyImages(bs: seq<Body>): seq<Image> {
    if bs == [] then [] else (if ForImage(bs[0]) then [bs[0].image] else []) + BodyImages(bs[1..])
  }

  // ----- what blocks and units show -----

  /** A visible character, or an image in its place. */
  datatype Piece = Visible(c: char) | Shown(image: Image)

  function Pieces(glyphs: string): seq<Piece> {
    if glyphs == "" then [] else [Visible(glyphs[0])] + Pieces(glyphs[1..])
  }

  function TextPieces(s: string): seq<Piece> {
    Pieces(Glyphs(s))
  }

  function UnitPieces(us: seq<Unit>): seq<Piece> {
    if us == [] then []
    else (if us[0].ImageUnit? then [Shown(us[0].image)] else TextPieces(us[0].text)) + UnitPieces(us[1..])
  }

  function ItemPieces(items: seq<string>): seq<Piece> {
    if items == [] then [] else TextPieces(items[0]) + ItemPieces(items[1..])
  }

  function PiecesOfBody(b: Body): seq<Piece> {
    match b
    case TextBlock(text) => TextPieces(text)
    case ListBlock(_, items) => ItemPieces(items)
    case Callout(text) => TextPieces(text)
    case ImageBlock(_, _, image) => [Shown(image)]
    case MissingImage(_, image) => [Shown(image)]
    case _ => []
  }

  function BodyPieces(bs: seq<Body>): seq<Piece> {
    if bs == [] then [] else PiecesOfBody(bs[0]) + BodyPieces(bs[1..])
  }

  lemma {:induction false} PiecesConcat(a: string, b: string)
    ensures Pieces(a + b) == Pieces(a) + Pieces(b)
    decreases |a|
  {
    if a == "" {
      assert a + b == b;
    } else {
      assert (a + b)[1..] == a[1..] + b;
      PiecesConcat(a[1..], b);
    }
  }

  lemma TextPiecesConcat(a: string, b: string)
    ensures TextPieces(a + b) == TextPieces(a) + TextPieces(b)
  {
    GlyphsConcat(a, b);
    PiecesConcat(Glyphs(a), Glyphs(b));
  }

  lemma TextPiecesTrim(s: string)
    ensures TextPieces(Trim(s)) == TextPieces(s)
    ensures Trim(s) == "" ==> TextPieces(s) == []
  {
    TrimKeepsGlyphs(s);
  }

  lemma {:induction false} UnitPiecesConcat(a: seq<Unit>, b: seq<Unit>)
    ensures UnitPieces(a + b) == UnitPieces(a) + UnitPieces(b)
    decreases |a|
  {
    hide TextPieces;
    if a == [] {
      assert a + b == b;
    } else {
      assert (a + b)[1..] == a[1..] + b;
      UnitPiecesConcat(a[1..], b);
    }
  }

  lemma {:induction false} BodyPiecesConcat(a: seq<Body>, b: seq<Body>)
    ensures BodyPieces(a + b) == BodyPieces(a) + BodyPieces(b)
    ensures BodyImages(a + b) == BodyImages(a) + BodyImages(b)
    decreases |a|
  {
    hide PiecesOfBody;
    if a == [] {
      assert a + b == b;
    } else {
      assert (a + b)[1..] == a[1..] + b;
      BodyPiecesConcat(a[1..], b);
    }
  }

  /** The images among pieces. */
  function PieceImages(ps: seq<Piece>): seq<Image> {
    if ps == [] then [] else (if ps[0].Shown? then [ps[0].image] else []) + PieceImages(ps[1..])
  }

  lemma {:induction false} PieceImagesConcat(a: seq<Piece>, b: seq<Piece>)
    ensures PieceImages(a + b) == PieceImages(a) + PieceImages(b)
    decreases |a|
  {
    if a == [] {
      assert a + b == b;
    } else {
      assert (a + b)[1..] == a[1..] + b;
      PieceImagesConcat(a[1..], b);
    }
  }

  lemma {:induction false} TextHasNoImages(glyphs: string)
    ensures PieceImages(Pieces(glyphs)) == []
    decreases |glyphs|
  {
    if glyphs != "" {
      TextHasNoImages(glyphs[1..]);
    }
  }

  lemma {:induction false} ItemsHaveNoImages(items: seq<string>)
    ensures PieceImages(ItemPieces(items)) == []
    decreases |items|
  {
    hide Pieces;
    if items != [] {
      TextHasNoImages(Glyphs(items[0]));
      ItemsHaveNoImages(items[1..]);
      PieceImagesConcat(TextPieces(items[0]), ItemPieces(items[1..]));
    }
  }

  lemma {:induction false} UnitPieceImages(us: seq<Unit>)
    ensures PieceImages(UnitPieces(us)) == UnitImages(us)
    decreases |us|
  {
    hide Pieces, Glyphs;
    if us != [] {
      UnitPieceImages(us[1..]);
      if us[0].TextUnit? {
        TextHasNoImages(Glyphs(us[0].text));
        PieceImagesConcat(TextPieces(us[0].text), UnitPieces(us[1..]));
      }
    }
  }

  lemma {:induction false} BodyPieceImages(bs: seq<Body>)
    ensures PieceImages(BodyPieces(bs)) == BodyImages(bs)
    decreases |bs|
  {
    hide Pieces, Glyphs, ItemPieces, PieceImages;
    if bs == [] {
      NoPieces();
    } else {
      BodyPieceImages(bs[1..]);
      PieceImagesConcat(PiecesOfBody(bs[0]), BodyPieces(bs[1..]));
      BodyImagesOne(bs[0]);
    }
  }

  lemma NoPieces()
    ensures PieceImages([]) == []
  {
  }

  lemma BodyImagesOne(b: Body)
    ensures PieceImages(PiecesOfBody(b)) == if ForImage(b) then [b.image] else []
  {
    hide Pieces, Glyphs, ItemPieces;
    match b
    case TextBlock(text) => TextHasNoImages(Glyphs(text));
    case Callout(text) => TextHasNoImages(Glyphs(text));
    case ListBlock(_, items) => ItemsHaveNoImages(items);
    case _ =>
  }
}
