/** The blocks each kind of top-level node becomes, exactly: what stands between two images,
    where it is trimmed, and what it shows. */
module LessonBodies {
  import opened Text
  import opened LessonConversion
  import opened LessonConverter

  // ----- images and numbers -----

  /** An image whose file is a known asset becomes an image block, any other a placeholder that
      names the file; the alternative text, or the file name for want of one, goes with it
      unless the table the image comes from keeps it. */
  lemma ImageBodyMeans(assets: map<string, string>, image: Image, altRetained: bool)
    ensures var alt := if image.alt == "" then image.file else image.alt;
            var tag := "[\U{56FE}\U{7247}\U{7F3A}\U{5931}\U{FF1A}" + image.file + "]";
            && (image.file in assets && assets[image.file] != "" ==>
                  ImageBody(assets, image, altRetained) == ImageBlock(assets[image.file], alt, image))
            && (image.file !in assets || assets[image.file] == "" ==>
                  && (!altRetained && alt != "" ==> ImageBody(assets, image, altRetained) == MissingImage(tag + " " + alt, image))
                  && (altRetained || alt == "" ==> ImageBody(assets, image, altRetained) == MissingImage(tag, image)))
  {
    var tag := "[" + MISSING_LABEL + image.file + "]";
    assert tag + "" == tag;
    if image.alt != "" {
      assert tag + (" " + image.alt) == tag + " " + image.alt;
    } else {
      assert tag + (" " + image.file) == tag + " " + image.file;
    }
  }

  /** Every image of a list of images has its own block, in its place. */
  lemma {:induction false} ImageBodiesAt(assets: map<string, string>, images: seq<Image>, altRetained: bool, i: nat)
    ensures |ImageBodies(assets, images, altRetained)| == |images|
    ensures i < |images| ==> ImageBodies(assets, images, altRetained)[i] == ImageBody(assets, images[i], altRetained)
    decreases |images|
  {
    hide ImageBody;
    if images != [] {
      ImageBodiesAt(assets, images[1..], altRetained, if i > 0 then i - 1 else 0);
    }
  }

  /** A block id is a prefix and the number in decimal, with at least three digits. */
  lemma BlockIdShows(n: nat)
    ensures |BlockId(n)| >= 5 && BlockId(n)[..2] == "b-"
    ensures Digits(BlockId(n)[2..]) && Value(BlockId(n)[2..]) == n
    ensures BlockId(n)[2..] == Decimal(n) || (|BlockId(n)| == 5 && |Decimal(n)| < 3)
  {
    hide Digits, Value, Decimal;
    ValueOfDecimal(n);
    ValueOfPadded(Decimal(n), 3);
    PaddedSize(Decimal(n), 3);
    assert BlockId(n)[2..] == PadStart(Decimal(n), 3);
  }

  lemma {:induction false} PaddedSize(s: string, width: nat)
    ensures if |s| >= width then PadStart(s, width) == s else |PadStart(s, width)| == width
    decreases width - |s|
  {
    if |s| < width {
      PaddedSize("0" + s, width);
    }
  }

  // ----- paragraphs -----

  function TextIfSeen(text: string): seq<Body> {
    if Trim(text) == "" then [] else [TextBlock(text)]
  }

  /** Only the end of a paragraph is trimmed; text before an image is kept as it stands. */
  function ParagraphBodies(units: seq<Phrasing>, phrasing: seq<Phrasing>, assets: map<string, string>, pr: Printers): seq<Body>
    decreases |units|
  {
    if units == [] then TextIfSeen(Trim(Inline(phrasing, pr)))
    else if units[0].Picture? then
      TextIfSeen(Inline(phrasing, pr)) + [ImageBody(assets, units[0].image, false)] + ParagraphBodies(units[1..], [], assets, pr)
    else ParagraphBodies(units[1..], phrasing + [units[0]], assets, pr)
  }

  predicate NoPictures(units: seq<Phrasing>) {
    forall u <- units :: !u.Picture?
  }

  lemma {:induction false} ParagraphGathers(a: seq<Phrasing>, rest: seq<Phrasing>, phrasing: seq<Phrasing>,
      assets: map<string, string>, pr: Printers)
    requires NoPictures(a)
    ensures ParagraphBodies(a + rest, phrasing, assets, pr) == ParagraphBodies(rest, phrasing + a, assets, pr)
    decreases |a|
  {
    hide Inline, ImageBody, TextIfSeen, Trim;
    if a == [] {
      assert a + rest == rest && phrasing + a == phrasing;
    } else {
      assert a[0] in a && (a + rest)[1..] == a[1..] + rest && phrasing + [a[0]] + a[1..] == phrasing + a;
      ParagraphGathers(a[1..], rest, phrasing + [a[0]], assets, pr);
    }
  }

  /** A paragraph is cut at its images.  The text before one becomes a block as it stands, the
      text after the last one a trimmed block, and white space becomes none. */
  lemma ParagraphIsCut(a: seq<Phrasing>, image: Image, rest: seq<Phrasing>, assets: map<string, string>, pr: Printers)
    requires NoPictures(a)
    ensures var text := Inline(a, pr);
            && ParagraphBodies(a, [], assets, pr) == (if Trim(text) == "" then [] else [TextBlock(Trim(text))])
            && ParagraphBodies(a + ([Picture(image)] + rest), [], assets, pr) ==
                 (if Trim(text) == "" then [] else [TextBlock(text)])
                 + [ImageBody(assets, image, false)] + ParagraphBodies(rest, [], assets, pr)
  {
    hide Inline, ImageBody, Trim;
    ParagraphGathers(a, [], [], assets, pr);
    ParagraphGathers(a, [Picture(image)] + rest, [], assets, pr);
    assert a + [] == a && [] + a == a && ([Picture(image)] + rest)[1..] == rest;
    TrimTwice(Inline(a, pr));
  }

  lemma TrimTwice(s: string)
    ensures Trim(Trim(s)) == Trim(s)
  {
    TrimTrims(s);
    TrimTrims(Trim(s));
  }

  /** The text of nodes without images is what the printer prints for each. */
  lemma {:induction false} InlineIsPrinted(ps: seq<Phrasing>, pr: Printers)
    requires forall p <- ps :: !AnyImage(p)
    ensures DropImages(ps) == ps && Inline(ps, pr) == RenderAll(ps, pr)
    decreases ps
  {
    if ps != [] {
      assert ps[0] in ps;
      InlineIsPrinted(ps[1..], pr);
      if ps[0].Mark? {
        NoneInside(ps[0].children);
        InlineIsPrinted(ps[0].children, pr);
      }
      assert ps == [ps[0]] + ps[1..];
    }
  }

  /** The leaves of a tree without its images. */
  function WithoutShots(atoms: seq<Atom>): seq<Atom> {
    if atoms == [] then [] else (if atoms[0].Shot? then [] else [atoms[0]]) + WithoutShots(atoms[1..])
  }

  lemma {:induction false} ShotsGo(a: seq<Atom>, b: seq<Atom>)
    ensures WithoutShots(a + b) == WithoutShots(a) + WithoutShots(b)
    decreases |a|
  {
    if a == [] {
      assert a + b == b;
    } else {
      assert (a + b)[0] == a[0] && (a + b)[1..] == a[1..] + b;
      ShotsGo(a[1..], b);
    }
  }

  /** Leaving images out loses no text and takes none out of its marks. */
  lemma {:induction false} DropKeepsText(ps: seq<Phrasing>, marks: seq<string>)
    ensures Atoms(DropImages(ps), marks) == WithoutShots(Atoms(ps, marks))
    decreases ps
  {
    if ps != [] {
      hide WithoutShots;
      DropKeepsText(ps[1..], marks);
      ShotsGo(AtomsOf(ps[0], marks), Atoms(ps[1..], marks));
      AtomsConcat(DropImage(ps[0]), DropImages(ps[1..]), marks);
      if ps[0].Mark? {
        DropKeepsText(ps[0].children, marks + [ps[0].name]);
        AtomsSingle(Mark(ps[0].name, DropImages(ps[0].children)), marks);
      } else {
        OneDropped(ps[0], marks);
      }
    }
  }

  lemma OneDropped(p: Phrasing, marks: seq<string>)
    requires !p.Mark?
    ensures Atoms(DropImage(p), marks) == WithoutShots(AtomsOf(p, marks))
  {
    assert [p][1..] == [] && AtomsOf(p, marks)[1..] == [];
  }

  lemma {:induction false} NoneInside(ps: seq<Phrasing>)
    requires ImagesIn(ps) == []
    ensures forall p <- ps :: !AnyImage(p)
  {
    if ps != [] {
      NoneInside(ps[1..]);
    }
  }

  // ----- blockquotes -----

  function CalloutIfAny(body: string): seq<Body> {
    if Trim(body) == "" then [] else [Callout(Trim(body))]
  }

  function QuoteBodies(units: seq<Unit>, body: string, assets: map<string, string>): seq<Body>
    decreases |units|
  {
    if units == [] then CalloutIfAny(body)
    else match units[0]
      case ImageUnit(image) => CalloutIfAny(body) + [ImageBody(assets, image, false)] + QuoteBodies(units[1..], "", assets)
      case TextUnit(text) => QuoteBodies(units[1..], body + text, assets)
  }

  /** The text of units, images left out. */
  function AllText(units: seq<Unit>): string {
    if units == [] then "" else (if units[0].TextUnit? then units[0].text else "") + AllText(units[1..])
  }

  predicate NoImageUnits(units: seq<Unit>) {
    forall u <- units :: u.TextUnit?
  }

  lemma {:induction false} QuoteGathers(a: seq<Unit>, rest: seq<Unit>, body: string, assets: map<string, string>)
    requires NoImageUnits(a)
    ensures QuoteBodies(a + rest, body, assets) == QuoteBodies(rest, body + AllText(a), assets)
    decreases |a|
  {
    hide ImageBody, CalloutIfAny;
    if a == [] {
      assert a + rest == rest && body + "" == body;
    } else {
      assert a[0] in a && (a + rest)[1..] == a[1..] + rest;
      assert body + a[0].text + AllText(a[1..]) == body + AllText(a);
      QuoteGathers(a[1..], rest, body + a[0].text, assets);
    }
  }

  /** A quote is cut at its images; all text between two of them is one trimmed callout. */
  lemma QuoteIsCut(a: seq<Unit>, image: Image, rest: seq<Unit>, assets: map<string, string>)
    requires NoImageUnits(a)
    ensures var text := Trim(AllText(a)); var callout := if text == "" then [] else [Callout(text)];
            && QuoteBodies(a, "", assets) == callout
            && QuoteBodies(a + ([ImageUnit(image)] + rest), "", assets) ==
                 callout + [ImageBody(assets, image, false)] + QuoteBodies(rest, "", assets)
  {
    hide ImageBody, AllText, Trim;
    QuoteGathers(a, [], "", assets);
    QuoteGathers(a, [ImageUnit(image)] + rest, "", assets);
    assert a + [] == a && "" + AllText(a) == AllText(a) && ([ImageUnit(image)] + rest)[1..] == rest;
  }

  function JoinedBy(texts: seq<string>, separator: string): string {
    if texts == [] then "" else if |texts| == 1 then texts[0]
    else texts[0] + separator + JoinedBy(texts[1..], separator)
  }

  lemma {:induction false} TextConcat(a: seq<Unit>, b: seq<Unit>)
    ensures AllText(a + b) == AllText(a) + AllText(b)
    decreases |a|
  {
    if a == [] {
      assert a + b == b;
    } else {
      assert (a + b)[1..] == a[1..] + b;
      TextConcat(a[1..], b);
    }
  }

  lemma PartText(index: nat, separator: string, part: seq<Unit>, rest: seq<Unit>)
    ensures AllText(Between(index, separator) + part + rest) == (if index == 0 then "" else separator) + AllText(part) + AllText(rest)
  {
    hide AllText;
    TextConcat(Between(index, separator) + part, rest);
    TextConcat(Between(index, separator), part);
    OneSeparator(index, separator);
  }

  lemma OneSeparator(index: nat, separator: string)
    ensures AllText(Between(index, separator)) == if index == 0 then "" else separator
  {
    assert [TextUnit(separator)][1..] == [] && separator + "" == separator;
  }

  lemma JoinFirst(texts: seq<string>, separator: string, index: nat, first: string, rest: string)
    requires texts != [] && first == texts[0]
    requires rest == if |texts| == 1 then "" else separator + JoinedBy(texts[1..], separator)
    ensures (if index == 0 then "" else separator) + first + rest
         == (if index == 0 then "" else separator) + JoinedBy(texts, separator)
  {
    assert first + "" == first;
  }

  /** The text of blocks in a quote is joined by line feeds. */
  lemma {:induction false} FlowTextIsJoined(fs: seq<Flow>, index: nat, pr: Printers)
    ensures AllText(FlowUnits(fs, index, pr)) ==
            if fs == [] then ""
            else (if index == 0 then "" else "\n")
                 + JoinedBy(seq(|fs|, i requires 0 <= i < |fs| => AllText(ContentUnits(fs[i], pr))), "\n")
    decreases |fs|
  {
    hide AllText, ContentUnits, JoinedBy;
    if fs == [] {
      assert AllText([]) == "" by { NoTextYet(); }
    } else {
      var texts := seq(|fs|, i requires 0 <= i < |fs| => AllText(ContentUnits(fs[i], pr)));
      FlowTextIsJoined(fs[1..], index + 1, pr);
      assert texts[1..] == seq(|fs[1..]|, i requires 0 <= i < |fs[1..]| => AllText(ContentUnits(fs[1..][i], pr)));
      PartText(index, "\n", ContentUnits(fs[0], pr), FlowUnits(fs[1..], index + 1, pr));
      JoinFirst(texts, "\n", index, texts[0], AllText(FlowUnits(fs[1..], index + 1, pr)));
    }
  }

  lemma NoTextYet()
    ensures AllText([]) == ""
  {
  }

  /** So is that of the items of a list. */
  lemma {:induction false} ItemTextIsJoined(items: seq<Item>, index: nat, pr: Printers)
    ensures AllText(ItemUnits(items, index, pr)) ==
            if items == [] then ""
            else (if index == 0 then "" else "\n")
                 + JoinedBy(seq(|items|, i requires 0 <= i < |items| => AllText(FlowUnits(items[i].flow, 0, pr))), "\n")
    decreases |items|
  {
    hide AllText, FlowUnits, JoinedBy;
    if items == [] {
      assert AllText([]) == "" by { NoTextYet(); }
    } else {
      var texts := seq(|items|, i requires 0 <= i < |items| => AllText(FlowUnits(items[i].flow, 0, pr)));
      ItemTextIsJoined(items[1..], index + 1, pr);
      assert texts[1..] == seq(|items[1..]|, i requires 0 <= i < |items[1..]| => AllText(FlowUnits(items[1..][i].flow, 0, pr)));
      PartText(index, "\n", FlowUnits(items[0].flow, 0, pr), ItemUnits(items[1..], index + 1, pr));
      JoinFirst(texts, "\n", index, texts[0], AllText(ItemUnits(items[1..], index + 1, pr)));
    }
  }

  /** In a table inside a quote, cells are joined by bars. */
  lemma {:induction false} CellTextIsJoined(cells: seq<seq<Phrasing>>, index: nat, pr: Printers)
    ensures AllText(CellUnits(cells, index, pr)) ==
            if cells == [] then ""
            else (if index == 0 then "" else " | ")
                 + JoinedBy(seq(|cells|, i requires 0 <= i < |cells| => AllText(PhrasingUnits(cells[i], pr))), " | ")
    decreases |cells|
  {
    hide AllText, PhrasingUnits, JoinedBy;
    if cells == [] {
      assert AllText([]) == "" by { NoTextYet(); }
    } else {
      var texts := seq(|cells|, i requires 0 <= i < |cells| => AllText(PhrasingUnits(cells[i], pr)));
      CellTextIsJoined(cells[1..], index + 1, pr);
      assert texts[1..] == seq(|cells[1..]|, i requires 0 <= i < |cells[1..]| => AllText(PhrasingUnits(cells[1..][i], pr)));
      PartText(index, " | ", PhrasingUnits(cells[0], pr), CellUnits(cells[1..], index + 1, pr));
      JoinFirst(texts, " | ", index, texts[0], AllText(CellUnits(cells[1..], index + 1, pr)));
    }
  }

  /** And rows by line feeds. */
  lemma {:induction false} RowTextIsJoined(rows: seq<seq<seq<Phrasing>>>, index: nat, pr: Printers)
    ensures AllText(RowUnits(rows, index, pr)) ==
            if rows == [] then ""
            else (if index == 0 then "" else "\n")
                 + JoinedBy(seq(|rows|, i requires 0 <= i < |rows| => AllText(CellUnits(rows[i], 0, pr))), "\n")
    decreases |rows|
  {
    hide AllText, CellUnits, JoinedBy;
    if rows == [] {
      assert AllText([]) == "" by { NoTextYet(); }
    } else {
      var texts := seq(|rows|, i requires 0 <= i < |rows| => AllText(CellUnits(rows[i], 0, pr)));
      RowTextIsJoined(rows[1..], index + 1, pr);
      assert texts[1..] == seq(|rows[1..]|, i requires 0 <= i < |rows[1..]| => AllText(CellUnits(rows[1..][i], 0, pr)));
      PartText(index, "\n", CellUnits(rows[0], 0, pr), RowUnits(rows[1..], index + 1, pr));
      JoinFirst(texts, "\n", index, texts[0], AllText(RowUnits(rows[1..], index + 1, pr)));
    }
  }

  // ----- the items of a list -----

  function ItemIfAny(text: string): seq<Unit> {
    if Trim(text) == "" then [] else [TextUnit(Trim(text))]
  }

  /** A paragraph of an item: all its text between two images is one item. */
  function ParagraphItems(us: seq<Unit>, text: string): seq<Unit>
    decreases |us|
  {
    if us == [] then ItemIfAny(text)
    else match us[0]
      case ImageUnit(_) => ItemIfAny(text) + [us[0]] + ParagraphItems(us[1..], "")
      case TextUnit(more) => ParagraphItems(us[1..], text + more)
  }

  /** Any other content: each unit of text is an item. */
  function EachItem(us: seq<Unit>): seq<Unit> {
    if us == [] then []
    else (if us[0].ImageUnit? then [us[0]] else ItemIfAny(us[0].text)) + EachItem(us[1..])
  }

  /** Nested lists are flattened into the items of the outer one. */
  function ChildItems(f: Flow, pr: Printers): seq<Unit>
    decreases f
  {
    match f
    case List(_, items) => ListItems(items, pr)
    case Paragraph(ps) => ParagraphItems(PhrasingUnits(ps, pr), "")
    case _ => EachItem(ContentUnits(f, pr))
  }

  function FlowItems(fs: seq<Flow>, pr: Printers): seq<Unit>
    decreases fs
  {
    if fs == [] then [] else ChildItems(fs[0], pr) + FlowItems(fs[1..], pr)
  }

  function ListItems(items: seq<Item>, pr: Printers): seq<Unit>
    decreases items
  {
    if items == [] then [] else FlowItems(items[0].flow, pr) + ListItems(items[1..], pr)
  }

  lemma {:induction false} ItemsGather(a: seq<Unit>, rest: seq<Unit>, text: string)
    requires NoImageUnits(a)
    ensures ParagraphItems(a + rest, text) == ParagraphItems(rest, text + AllText(a))
    decreases |a|
  {
    hide ItemIfAny;
    if a == [] {
      assert a + rest == rest && text + "" == text;
    } else {
      assert a[0] in a && (a + rest)[1..] == a[1..] + rest;
      assert text + a[0].text + AllText(a[1..]) == text + AllText(a);
      ItemsGather(a[1..], rest, text + a[0].text);
    }
  }

  /** A paragraph of a list item is one item, trimmed, unless an image cuts it. */
  lemma ItemIsCut(a: seq<Unit>, image: Image, rest: seq<Unit>)
    requires NoImageUnits(a)
    ensures var text := Trim(AllText(a)); var item := if text == "" then [] else [TextUnit(text)];
            && ParagraphItems(a, "") == item
            && ParagraphItems(a + ([ImageUnit(image)] + rest), "") == item + [ImageUnit(image)] + ParagraphItems(rest, "")
  {
    hide AllText, Trim;
    ItemsGather(a, [], "");
    ItemsGather(a, [ImageUnit(image)] + rest, "");
    assert a + [] == a && "" + AllText(a) == AllText(a) && ([ImageUnit(image)] + rest)[1..] == rest;
  }

  lemma {:induction false} EachConcat(a: seq<Unit>, b: seq<Unit>)
    ensures EachItem(a + b) == EachItem(a) + EachItem(b)
    decreases |a|
  {
    hide ItemIfAny;
    if a == [] {
      assert a + b == b;
    } else {
      assert (a + b)[1..] == a[1..] + b;
      EachConcat(a[1..], b);
    }
  }

  /** Each unit of other content stands for itself, whatever surrounds it. */
  lemma EachItemIs(a: seq<Unit>, u: Unit, b: seq<Unit>)
    ensures EachItem(a + [u] + b) == EachItem(a) + EachItem([u]) + EachItem(b)
    ensures EachItem([u]) == if u.ImageUnit? then [u] else if Trim(u.text) == "" then [] else [TextUnit(Trim(u.text))]
  {
    OneUnitItem(u);
    EachConcat(a + [u], b);
    EachConcat(a, [u]);
  }

  lemma OneUnitItem(u: Unit)
    ensures EachItem([u]) == if u.ImageUnit? then [u] else if Trim(u.text) == "" then [] else [TextUnit(Trim(u.text))]
    ensures EachItem([u]) == if u.ImageUnit? then [u] else ItemIfAny(u.text)
  {
    hide Trim;
    assert [u][1..] == [];
  }

  /** The items of lists and of what they hold, one after the other. */
  lemma {:induction false} FlowItemsConcat(a: seq<Flow>, b: seq<Flow>, pr: Printers)
    ensures FlowItems(a + b, pr) == FlowItems(a, pr) + FlowItems(b, pr)
    decreases |a|
  {
    hide ChildItems;
    if a == [] {
      assert a + b == b;
    } else {
      assert (a + b)[1..] == a[1..] + b;
      FlowItemsConcat(a[1..], b, pr);
    }
  }

  /** It does not matter how deep a list is nested: its items stand where it stands. */
  lemma NestedListIsFlattened(before: seq<Flow>, ordered: bool, items: seq<Item>, after: seq<Flow>, pr: Printers)
    ensures ListItems([Item(before + [List(ordered, items)] + after)], pr)
         == FlowItems(before, pr) + ListItems(items, pr) + FlowItems(after, pr)
  {
    hide ListItems, FlowItems;
    OneListItem(before + [List(ordered, items)] + after, pr);
    FlowItemsConcat(before + [List(ordered, items)], after, pr);
    FlowItemsConcat(before, [List(ordered, items)], pr);
    OneChild(List(ordered, items), pr);
  }

  lemma OneListItem(flow: seq<Flow>, pr: Printers)
    ensures ListItems([Item(flow)], pr) == FlowItems(flow, pr)
  {
    hide FlowItems;
    assert [Item(flow)][1..] == [];
  }

  lemma OneChild(f: Flow, pr: Printers)
    ensures FlowItems([f], pr) == ChildItems(f, pr)
  {
    hide ChildItems;
    assert [f][1..] == [];
  }

  // ----- lists -----

  function ListIfAny(ordered: bool, items: seq<string>): seq<Body> {
    if items == [] then [] else [ListBlock(ordered, items)]
  }

  function ListBodies(us: seq<Unit>, ordered: bool, items: seq<string>, assets: map<string, string>): seq<Body>
    decreases |us|
  {
    if us == [] then ListIfAny(ordered, items)
    else match us[0]
      case ImageUnit(image) =>
        ListIfAny(ordered, items) + [ImageBody(assets, image, false)] + ListBodies(us[1..], ordered, [], assets)
      case TextUnit(text) => ListBodies(us[1..], ordered, items + [text], assets)
  }

  function TextsOf(us: seq<Unit>): seq<string> {
    if us == [] then [] else (if us[0].TextUnit? then [us[0].text] else []) + TextsOf(us[1..])
  }

  lemma {:induction false} ListGathers(a: seq<Unit>, rest: seq<Unit>, ordered: bool, items: seq<string>, assets: map<string, string>)
    requires NoImageUnits(a)
    ensures ListBodies(a + rest, ordered, items, assets) == ListBodies(rest, ordered, items + TextsOf(a), assets)
    decreases |a|
  {
    hide ImageBody, ListIfAny;
    if a == [] {
      assert a + rest == rest && items + [] == items;
    } else {
      assert a[0] in a && (a + rest)[1..] == a[1..] + rest;
      assert items + [a[0].text] + TextsOf(a[1..]) == items + TextsOf(a);
      ListGathers(a[1..], rest, ordered, items + [a[0].text], assets);
    }
  }

  /** A list is cut at its images only: all items between two of them are one list block. */
  lemma ListIsCut(a: seq<Unit>, image: Image, rest: seq<Unit>, ordered: bool, assets: map<string, string>)
    requires NoImageUnits(a)
    ensures var list := if a == [] then [] else [ListBlock(ordered, TextsOf(a))];
            && ListBodies(a, ordered, [], assets) == list
            && ListBodies(a + ([ImageUnit(image)] + rest), ordered, [], assets) ==
                 list + [ImageBody(assets, image, false)] + ListBodies(rest, ordered, [], assets)
  {
    hide ImageBody;
    ListGathers(a, [], ordered, [], assets);
    ListGathers(a, [ImageUnit(image)] + rest, ordered, [], assets);
    assert a + [] == a && [] + TextsOf(a) == TextsOf(a) && ([ImageUnit(image)] + rest)[1..] == rest;
    assert a != [] ==> a[0] in a;
  }

  // ----- what the blocks show -----

  lemma OneImage(image: Image)
    ensures UnitPieces([ImageUnit(image)]) == [Shown(image)]
  {
    assert UnitPieces([]) == [] && [ImageUnit(image)][1..] == [];
  }

  lemma OneText(text: string)
    ensures UnitPieces([TextUnit(text)]) == TextPieces(text)
  {
    hide TextPieces;
    assert UnitPieces([]) == [] && [TextUnit(text)][1..] == [];
  }

  lemma OneBody(b: Body)
    ensures BodyPieces([b]) == PiecesOfBody(b)
  {
    hide PiecesOfBody;
    assert [b][1..] == [];
  }

  lemma NothingShown()
    ensures TextPieces("") == [] && BodyPieces([]) == [] && UnitPieces([]) == []
  {
  }

  lemma FirstUnit(us: seq<Unit>)
    requires us != []
    ensures UnitPieces(us) == (if us[0].ImageUnit? then [Shown(us[0].image)] else TextPieces(us[0].text)) + UnitPieces(us[1..])
  {
    hide TextPieces;
  }

  lemma ImageBodyShows(assets: map<string, string>, image: Image, altRetained: bool)
    ensures var b := ImageBody(assets, image, altRetained); ForImage(b) && b.image == image && PiecesOfBody(b) == [Shown(image)]
  {
  }

  /** A flushed text, the image that ends it, and the rest. */
  lemma CutShows(flushed: seq<Body>, image: Image, rest: seq<Body>, assets: map<string, string>, text: seq<Piece>, more: seq<Piece>)
    requires BodyPieces(flushed) == text && BodyPieces(rest) == more
    ensures BodyPieces(flushed + [ImageBody(assets, image, false)] + rest) == text + ([Shown(image)] + more)
  {
    hide ImageBody, PiecesOfBody, BodyPieces;
    var b := ImageBody(assets, image, false);
    ImageBodyShows(assets, image, false);
    OneBody(b);
    BodyPiecesConcat(flushed + [b], rest);
    BodyPiecesConcat(flushed, [b]);
  }

  lemma SeenShows(text: string)
    ensures BodyPieces(TextIfSeen(text)) == TextPieces(text)
    ensures BodyPieces(TextIfSeen(Trim(text))) == TextPieces(text)
    ensures BodyPieces(CalloutIfAny(text)) == TextPieces(text)
    ensures UnitPieces(ItemIfAny(text)) == TextPieces(text)
  {
    hide Trim, TextPieces;
    TextPiecesTrim(text);
    TrimTwice(text);
    NothingShown();
    OneText(Trim(text));
    OneBody(TextBlock(text));
    OneBody(TextBlock(Trim(text)));
    OneBody(Callout(Trim(text)));
  }

  /** The blocks of a paragraph show what its units show. */
  lemma {:induction false} ParagraphShows(units: seq<Phrasing>, phrasing: seq<Phrasing>, assets: map<string, string>, pr: Printers)
    ensures BodyPieces(ParagraphBodies(units, phrasing, assets, pr))
         == TextPieces(Inline(phrasing, pr)) + UnitPieces(UnitsOf(units, pr))
    decreases |units|
  {
    hide Inline, TextPieces, BodyPieces, UnitPieces, TextIfSeen, ImageBody, Trim;
    SeenShows(Inline(phrasing, pr));
    if units == [] {
      NothingShown();
    } else {
      var us := UnitsOf(units, pr);
      FirstUnit(us);
      assert us[1..] == UnitsOf(units[1..], pr);
      if units[0].Picture? {
        ParagraphShows(units[1..], [], assets, pr);
        assert Inline([], pr) == "" by { NoInline(pr); }
        NothingShown();
        CutShows(TextIfSeen(Inline(phrasing, pr)), units[0].image, ParagraphBodies(units[1..], [], assets, pr), assets,
                 TextPieces(Inline(phrasing, pr)), UnitPieces(us[1..]));
      } else {
        ParagraphShows(units[1..], phrasing + [units[0]], assets, pr);
        InlineConcat(phrasing, [units[0]], pr);
        TextPiecesConcat(Inline(phrasing, pr), Inline([units[0]], pr));
      }
    }
  }

  lemma NoInline(pr: Printers)
    ensures Inline([], pr) == ""
  {
  }

  lemma {:induction false} QuoteShows(units: seq<Unit>, body: string, assets: map<string, string>)
    ensures BodyPieces(QuoteBodies(units, body, assets)) == TextPieces(body) + UnitPieces(units)
    decreases |units|
  {
    hide TextPieces, BodyPieces, UnitPieces, CalloutIfAny, ImageBody;
    SeenShows(body);
    NothingShown();
    if units != [] {
      FirstUnit(units);
      match units[0]
      case ImageUnit(image) =>
        QuoteShows(units[1..], "", assets);
        CutShows(CalloutIfAny(body), image, QuoteBodies(units[1..], "", assets), assets, TextPieces(body), UnitPieces(units[1..]));
      case TextUnit(text) =>
        QuoteShows(units[1..], body + text, assets);
        TextPiecesConcat(body, text);
    }
  }

  lemma {:induction false} ParagraphItemsShow(us: seq<Unit>, text: string)
    ensures UnitPieces(ParagraphItems(us, text)) == TextPieces(text) + UnitPieces(us)
    decreases |us|
  {
    hide TextPieces, UnitPieces, ItemIfAny;
    SeenShows(text);
    NothingShown();
    if us != [] {
      FirstUnit(us);
      match us[0]
      case ImageUnit(image) =>
        ParagraphItemsShow(us[1..], "");
        UnitPiecesConcat(ItemIfAny(text) + [us[0]], ParagraphItems(us[1..], ""));
        UnitPiecesConcat(ItemIfAny(text), [us[0]]);
        OneImage(image);
      case TextUnit(more) =>
        ParagraphItemsShow(us[1..], text + more);
        TextPiecesConcat(text, more);
    }
  }

  lemma {:induction false} EachItemShows(us: seq<Unit>)
    ensures UnitPieces(EachItem(us)) == UnitPieces(us)
    decreases |us|
  {
    hide TextPieces, UnitPieces, ItemIfAny;
    if us != [] {
      FirstUnit(us);
      EachItemShows(us[1..]);
      if us[0].ImageUnit? {
        OneImage(us[0].image);
        UnitPiecesConcat([us[0]], EachItem(us[1..]));
      } else {
        SeenShows(us[0].text);
        UnitPiecesConcat(ItemIfAny(us[0].text), EachItem(us[1..]));
      }
    }
  }

  lemma PartPieces(index: nat, part: seq<Unit>, rest: seq<Unit>)
    ensures UnitPieces(Between(index, "\n") + part + rest) == UnitPieces(part) + UnitPieces(rest)
  {
    hide UnitPieces;
    UnitPiecesConcat(Between(index, "\n") + part, rest);
    UnitPiecesConcat(Between(index, "\n"), part);
    BreakShowsNothing(index);
  }

  lemma BreakShowsNothing(index: nat)
    ensures UnitPieces(Between(index, "\n")) == []
  {
    if index > 0 {
      OneText("\n");
      SpaceIsSpace();
      assert Glyphs("\n") == "";
    }
  }

  /** The items of a list show what the units of its content show. */
  lemma {:induction false} ListItemsShow(items: seq<Item>, index: nat, pr: Printers)
    ensures UnitPieces(ListItems(items, pr)) == UnitPieces(ItemUnits(items, index, pr))
    decreases items
  {
    hide UnitPieces, FlowItems, FlowUnits;
    if items != [] {
      FlowItemsShow(items[0].flow, 0, pr);
      ListItemsShow(items[1..], index + 1, pr);
      UnitPiecesConcat(FlowItems(items[0].flow, pr), ListItems(items[1..], pr));
      PartPieces(index, FlowUnits(items[0].flow, 0, pr), ItemUnits(items[1..], index + 1, pr));
    }
  }

  lemma {:induction false} FlowItemsShow(fs: seq<Flow>, index: nat, pr: Printers)
    ensures UnitPieces(FlowItems(fs, pr)) == UnitPieces(FlowUnits(fs, index, pr))
    decreases fs
  {
    hide UnitPieces, ChildItems, ContentUnits;
    if fs != [] {
      ChildItemsShow(fs[0], pr);
      FlowItemsShow(fs[1..], index + 1, pr);
      UnitPiecesConcat(ChildItems(fs[0], pr), FlowItems(fs[1..], pr));
      PartPieces(index, ContentUnits(fs[0], pr), FlowUnits(fs[1..], index + 1, pr));
    }
  }

  lemma {:induction false} ChildItemsShow(f: Flow, pr: Printers)
    ensures UnitPieces(ChildItems(f, pr)) == UnitPieces(ContentUnits(f, pr))
    decreases f
  {
    hide UnitPieces, PhrasingUnits, RowUnits, TextIfAny, FlowUnits, ItemUnits, EachItem, ParagraphItems;
    match f
    case List(_, items) => ListItemsShow(items, 0, pr);
    case Paragraph(ps) =>
      ParagraphItemsShow(PhrasingUnits(ps, pr), "");
      NothingShown();
    case _ => EachItemShows(ContentUnits(f, pr));
  }

  /** Items are trimmed and not empty. */
  predicate ItemText(u: Unit) {
    u.TextUnit? ==> u.text != "" && Trimmed(u.text)
  }

  lemma ItemIsTrimmed(text: string)
    ensures forall u <- ItemIfAny(text) :: ItemText(u)
  {
    TrimTrims(text);
  }

  lemma {:induction false} ParagraphItemsAreTrimmed(us: seq<Unit>, text: string)
    ensures forall u <- ParagraphItems(us, text) :: ItemText(u)
    decreases |us|
  {
    hide ItemIfAny, Trimmed;
    ItemIsTrimmed(text);
    if us != [] {
      match us[0]
      case ImageUnit(_) => ParagraphItemsAreTrimmed(us[1..], "");
      case TextUnit(more) => ParagraphItemsAreTrimmed(us[1..], text + more);
    }
  }

  lemma {:induction false} EachItemIsTrimmed(us: seq<Unit>)
    ensures forall u <- EachItem(us) :: ItemText(u)
  {
    hide ItemIfAny, Trimmed;
    if us != [] {
      EachItemIsTrimmed(us[1..]);
      if us[0].TextUnit? {
        ItemIsTrimmed(us[0].text);
      }
    }
  }

  lemma {:induction false} ListItemsAreTrimmed(items: seq<Item>, pr: Printers)
    ensures forall u <- ListItems(items, pr) :: ItemText(u)
    decreases items
  {
    hide ItemText;
    if items != [] {
      FlowItemsAreTrimmed(items[0].flow, pr);
      ListItemsAreTrimmed(items[1..], pr);
    }
  }

  lemma {:induction false} FlowItemsAreTrimmed(fs: seq<Flow>, pr: Printers)
    ensures forall u <- FlowItems(fs, pr) :: ItemText(u)
    decreases fs
  {
    hide ItemText, EachItem, ParagraphItems, ContentUnits, PhrasingUnits;
    if fs != [] {
      FlowItemsAreTrimmed(fs[1..], pr);
      match fs[0]
      case List(_, items) => ListItemsAreTrimmed(items, pr);
      case Paragraph(ps) => ParagraphItemsAreTrimmed(PhrasingUnits(ps, pr), "");
      case _ => EachItemIsTrimmed(ContentUnits(fs[0], pr));
    }
  }

  lemma {:induction false} ItemsConcat(a: seq<string>, b: seq<string>)
    ensures ItemPieces(a + b) == ItemPieces(a) + ItemPieces(b)
    decreases |a|
  {
    hide TextPieces;
    if a == [] {
      assert a + b == b;
    } else {
      assert (a + b)[1..] == a[1..] + b;
      ItemsConcat(a[1..], b);
    }
  }

  lemma OneItem(text: string)
    ensures ItemPieces([text]) == TextPieces(text)
  {
    hide TextPieces;
    assert [text][1..] == [];
  }

  lemma ListShown(ordered: bool, items: seq<string>)
    ensures BodyPieces(ListIfAny(ordered, items)) == ItemPieces(items)
  {
    hide TextPieces;
    OneBody(ListBlock(ordered, items));
  }

  /** List blocks show their items. */
  lemma {:induction false} ListShows(us: seq<Unit>, ordered: bool, items: seq<string>, assets: map<string, string>)
    ensures BodyPieces(ListBodies(us, ordered, items, assets)) == ItemPieces(items) + UnitPieces(us)
    decreases |us|
  {
    hide TextPieces, BodyPieces, UnitPieces, ListIfAny, ImageBody, ItemPieces;
    ListShown(ordered, items);
    NothingShown();
    if us != [] {
      FirstUnit(us);
      match us[0]
      case ImageUnit(image) =>
        ListShows(us[1..], ordered, [], assets);
        ListShown(ordered, []);
        assert ItemPieces([]) == [] by { NoItems(); }
        CutShows(ListIfAny(ordered, items), image, ListBodies(us[1..], ordered, [], assets), assets,
                 ItemPieces(items), UnitPieces(us[1..]));
      case TextUnit(text) =>
        ListShows(us[1..], ordered, items + [text], assets);
        ItemsConcat(items, [text]);
        OneItem(text);
    }
  }

  lemma NoItems()
    ensures ItemPieces([]) == []
  {
  }

  // ----- the kinds of blocks -----

  /** A text block with something to see, or the block of an image. */
  predicate ParagraphBody(b: Body, assets: map<string, string>) {
    (b.TextBlock? && Trim(b.text) != "") || (ForImage(b) && b == ImageBody(assets, b.image, false))
  }

  lemma {:induction false} ParagraphKinds(units: seq<Phrasing>, phrasing: seq<Phrasing>, assets: map<string, string>, pr: Printers)
    ensures forall b <- ParagraphBodies(units, phrasing, assets, pr) :: ParagraphBody(b, assets)
    decreases |units|
  {
    hide Inline, Trim, ImageBody;
    if units == [] {
      TrimTwice(Inline(phrasing, pr));
    } else if units[0].Picture? {
      ImageBodyShows(assets, units[0].image, false);
      ParagraphKinds(units[1..], [], assets, pr);
    } else {
      ParagraphKinds(units[1..], phrasing + [units[0]], assets, pr);
    }
  }

  predicate QuoteBody(b: Body, assets: map<string, string>) {
    (b.Callout? && b.text != "" && Trimmed(b.text)) || (ForImage(b) && b == ImageBody(assets, b.image, false))
  }

  lemma {:induction false} QuoteKinds(units: seq<Unit>, body: string, assets: map<string, string>)
    ensures forall b <- QuoteBodies(units, body, assets) :: QuoteBody(b, assets)
    decreases |units|
  {
    hide Trim, Trimmed, ImageBody;
    TrimTrims(body);
    if units != [] {
      match units[0]
      case ImageUnit(image) =>
        ImageBodyShows(assets, image, false);
        QuoteKinds(units[1..], "", assets);
      case TextUnit(text) => QuoteKinds(units[1..], body + text, assets);
    }
  }

  predicate ListBody(b: Body, ordered: bool, assets: map<string, string>) {
    (b.ListBlock? && b.ordered == ordered && b.items != []) || (ForImage(b) && b == ImageBody(assets, b.image, false))
  }

  /** Items are split by images only. */
  predicate NoListAfterList(bs: seq<Body>) {
    forall i | 0 <= i < |bs| - 1 :: !(bs[i].ListBlock? && bs[i + 1].ListBlock?)
  }

  lemma {:induction false} ListKinds(us: seq<Unit>, ordered: bool, items: seq<string>, assets: map<string, string>)
    ensures forall b <- ListBodies(us, ordered, items, assets) :: ListBody(b, ordered, assets)
    ensures NoListAfterList(ListBodies(us, ordered, items, assets))
    decreases |us|
  {
    hide ImageBody;
    if us != [] {
      match us[0]
      case ImageUnit(image) =>
        ImageBodyShows(assets, image, false);
        ListKinds(us[1..], ordered, [], assets);
      case TextUnit(text) => ListKinds(us[1..], ordered, items + [text], assets);
    }
  }
}
