/** Markdown trees to lesson blocks: images leave the running text they stand in and
    become blocks of their own, in place. */
module LessonConversion {
  import opened Text

  // ----- Markdown trees, by content model -----

  /** `file` is the name an image resolves to, `alt` its trimmed alternative text. */
  datatype Image = Image(file: string, alt: string)

  datatype Phrasing =
    | Picture(image: Image)
    | Leaf(text: string)
    | Mark(name: string, children: seq<Phrasing>)

  datatype Flow =
    | Paragraph(phrasing: seq<Phrasing>)
    | Heading(depth: nat, phrasing: seq<Phrasing>)
    | Code(lang: string, value: string)
    | Html(value: string)
    | Table(rows: seq<seq<seq<Phrasing>>>)
    | List(ordered: bool, items: seq<Item>)
    | Blockquote(flow: seq<Flow>)
    | ThematicBreak
    | Definition
    | Other(text: string)

  datatype Item = Item(flow: seq<Flow>)

  /** The printer of one phrasing node, and the removal of tags: calls whose code is
      not part of this module. */
  datatype Printers = Printers(render: Phrasing -> string, strip: string -> string)

  // ----- the images of a tree -----

  function ImagesIn(ps: seq<Phrasing>): seq<Image> {
    if ps == [] then [] else ImagesOf(ps[0]) + ImagesIn(ps[1..])
  }

  function ImagesOf(p: Phrasing): seq<Image> {
    match p
    case Picture(image) => [image]
    case Leaf(_) => []
    case Mark(_, ps) => ImagesIn(ps)
  }

  function CellImages(cells: seq<seq<Phrasing>>): seq<Image> {
    if cells == [] then [] else ImagesIn(cells[0]) + CellImages(cells[1..])
  }

  function RowImages(rows: seq<seq<seq<Phrasing>>>): seq<Image> {
    if rows == [] then [] else CellImages(rows[0]) + RowImages(rows[1..])
  }

  function ItemImages(items: seq<Item>): seq<Image>
    decreases items
  {
    if items == [] then [] else FlowImages(items[0].flow) + ItemImages(items[1..])
  }

  function FlowImages(fs: seq<Flow>): seq<Image>
    decreases fs
  {
    if fs == [] then [] else NestedImages(fs[0]) + FlowImages(fs[1..])
  }

  function NestedImages(f: Flow): seq<Image>
    decreases f
  {
    match f
    case Paragraph(ps) => ImagesIn(ps)
    case Heading(_, ps) => ImagesIn(ps)
    case Table(rows) => RowImages(rows)
    case List(_, items) => ItemImages(items)
    case Blockquote(fs) => FlowImages(fs)
    case _ => []
  }

  // ----- splitting phrasing -----

  /** `{ ...node, children: segment }`, unless there is nothing to wrap. */
  function Wrap(name: string, segment: seq<Phrasing>): seq<Phrasing> {
    if segment == [] then [] else [Mark(name, segment)]
  }

  /** Marks are cut open at each picture: what lies between pictures keeps its mark. */
  function SplitPhrasing(p: Phrasing): seq<Phrasing> {
    match p
    case Picture(_) => [p]
    case Leaf(_) => [p]
    case Mark(name, ps) => Segments(name, SplitAll(ps), [])
  }

  function SplitAll(ps: seq<Phrasing>): seq<Phrasing> {
    if ps == [] then [] else SplitPhrasing(ps[0]) + SplitAll(ps[1..])
  }

  function Segments(name: string, units: seq<Phrasing>, segment: seq<Phrasing>): seq<Phrasing>
    decreases |units|
  {
    if units == [] then Wrap(name, segment)
    else if units[0].Picture? then Wrap(name, segment) + [units[0]] + Segments(name, units[1..], [])
    else Segments(name, units[1..], segment + [units[0]])
  }

  // ----- inline text -----

  function DropImages(ps: seq<Phrasing>): seq<Phrasing> {
    if ps == [] then [] else DropImage(ps[0]) + DropImages(ps[1..])
  }

  /** `withoutImages`: nothing, or the node without the images inside it. */
  function DropImage(p: Phrasing): seq<Phrasing> {
    match p
    case Picture(_) => []
    case Leaf(_) => [p]
    case Mark(name, ps) => [Mark(name, DropImages(ps))]
  }

  function RenderAll(ps: seq<Phrasing>, pr: Printers): string {
    if ps == [] then "" else pr.render(ps[0]) + RenderAll(ps[1..], pr)
  }

  /** The text of phrasing without its images. */
  function Inline(ps: seq<Phrasing>, pr: Printers): string {
    RenderAll(DropImages(ps), pr)
  }

  lemma {:induction false} RenderConcat(a: seq<Phrasing>, b: seq<Phrasing>, pr: Printers)
    ensures RenderAll(a + b, pr) == RenderAll(a, pr) + RenderAll(b, pr)
    decreases |a|
  {
    if a == [] {
      assert a + b == b;
    } else {
      assert (a + b)[1..] == a[1..] + b;
      RenderConcat(a[1..], b, pr);
    }
  }

  lemma {:induction false} DropConcat(a: seq<Phrasing>, b: seq<Phrasing>)
    ensures DropImages(a + b) == DropImages(a) + DropImages(b)
    decreases |a|
  {
    if a == [] {
      assert a + b == b;
    } else {
      assert (a + b)[1..] == a[1..] + b;
      DropConcat(a[1..], b);
    }
  }

  lemma InlineConcat(a: seq<Phrasing>, b: seq<Phrasing>, pr: Printers)
    ensures Inline(a + b, pr) == Inline(a, pr) + Inline(b, pr)
  {
    DropConcat(a, b);
    RenderConcat(DropImages(a), DropImages(b), pr);
  }

  // ----- content units -----

  datatype Unit = TextUnit(text: string) | ImageUnit(image: Image)

  function UnitOf(p: Phrasing, pr: Printers): Unit {
    if p.Picture? then ImageUnit(p.image) else TextUnit(Inline([p], pr))
  }

  function UnitsOf(ps: seq<Phrasing>, pr: Printers): seq<Unit> {
    if ps == [] then [] else [UnitOf(ps[0], pr)] + UnitsOf(ps[1..], pr)
  }

  function PhrasingUnits(ps: seq<Phrasing>, pr: Printers): seq<Unit> {
    UnitsOf(SplitAll(ps), pr)
  }

  /** `index ? [{ kind: 'text', text: separator }] : []` */
  function Between(index: nat, separator: string): seq<Unit> {
    if index == 0 then [] else [TextUnit(separator)]
  }

  function CellUnits(cells: seq<seq<Phrasing>>, index: nat, pr: Printers): seq<Unit> {
    if cells == [] then []
    else Between(index, " | ") + PhrasingUnits(cells[0], pr) + CellUnits(cells[1..], index + 1, pr)
  }

  function RowUnits(rows: seq<seq<seq<Phrasing>>>, index: nat, pr: Printers): seq<Unit> {
    if rows == [] then []
    else Between(index, "\n") + CellUnits(rows[0], 0, pr) + RowUnits(rows[1..], index + 1, pr)
  }

  function FlowUnits(fs: seq<Flow>, index: nat, pr: Printers): seq<Unit>
    decreases fs
  {
    if fs == [] then []
    else Between(index, "\n") + ContentUnits(fs[0], pr) + FlowUnits(fs[1..], index + 1, pr)
  }

  function ItemUnits(items: seq<Item>, index: nat, pr: Printers): seq<Unit>
    decreases items
  {
    if items == [] then []
    else Between(index, "\n") + FlowUnits(items[0].flow, 0, pr) + ItemUnits(items[1..], index + 1, pr)
  }

  function TextIfAny(text: string): seq<Unit> {
    if text == "" then [] else [TextUnit(text)]
  }

  function ContentUnits(f: Flow, pr: Printers): seq<Unit>
    decreases f
  {
    match f
    case Paragraph(ps) => PhrasingUnits(ps, pr)
    case Heading(_, ps) => PhrasingUnits(ps, pr)
    case Code(_, value) => TextIfAny(value)
    case Html(value) => TextIfAny(Trim(pr.strip(value)))
    case Table(rows) => RowUnits(rows, 0, pr)
    case List(_, items) => ItemUnits(items, 0, pr)
    case Blockquote(fs) => FlowUnits(fs, 0, pr)
    case ThematicBreak => []
    case Definition => []
    case Other(text) => TextIfAny(Trim(text))
  }

  function UnitImages(us: seq<Unit>): seq<Image> {
    if us == [] then []
    else UnitImage(us[0]) + UnitImages(us[1..])
  }

  // ----- properties of the split -----

  predicate AnyImage(p: Phrasing) {
    ImagesOf(p) != []
  }

  /** A leaf of the tree with the marks around it; a picture stands alone. */
  datatype Atom = Glyph(marks: seq<string>, text: string) | Shot(image: Image)

  function Atoms(ps: seq<Phrasing>, marks: seq<string>): seq<Atom> {
    if ps == [] then [] else AtomsOf(ps[0], marks) + Atoms(ps[1..], marks)
  }

  function AtomsOf(p: Phrasing, marks: seq<string>): seq<Atom> {
    match p
    case Picture(image) => [Shot(image)]
    case Leaf(text) => [Glyph(marks, text)]
    case Mark(name, ps) => Atoms(ps, marks + [name])
  }

  lemma {:induction false} AtomsConcat(a: seq<Phrasing>, b: seq<Phrasing>, marks: seq<string>)
    ensures Atoms(a + b, marks) == Atoms(a, marks) + Atoms(b, marks)
    decreases |a|
  {
    if a == [] {
      assert a + b == b;
    } else {
      assert (a + b)[1..] == a[1..] + b;
      AtomsConcat(a[1..], b, marks);
    }
  }

  /** The split loses no leaf, reorders none, and leaves each under its own marks. */
  lemma {:induction false} SplitKeepsAtoms(p: Phrasing, marks: seq<string>)
    ensures Atoms(SplitPhrasing(p), marks) == AtomsOf(p, marks)
    decreases p, 0
  {
    match p
    case Mark(name, ps) =>
      SplitAllKeepsAtoms(ps, marks + [name]);
      SegmentsKeepAtoms(name, SplitAll(ps), [], marks);
      assert Atoms([], marks + [name]) == [];
    case _ =>
      assert [p][1..] == [];
  }

  lemma {:induction false} SplitAllKeepsAtoms(ps: seq<Phrasing>, marks: seq<string>)
    ensures Atoms(SplitAll(ps), marks) == Atoms(ps, marks)
    decreases ps, 1
  {
    if ps != [] {
      SplitKeepsAtoms(ps[0], marks);
      SplitAllKeepsAtoms(ps[1..], marks);
      AtomsConcat(SplitPhrasing(ps[0]), SplitAll(ps[1..]), marks);
    }
  }

  lemma WrapAtoms(name: string, segment: seq<Phrasing>, marks: seq<string>)
    ensures Atoms(Wrap(name, segment), marks) == Atoms(segment, marks + [name])
  {
    if segment != [] {
      assert [Mark(name, segment)][1..] == [];
    }
  }

  lemma {:induction false} SegmentsKeepAtoms(name: string, units: seq<Phrasing>, segment: seq<Phrasing>,
      marks: seq<string>)
    ensures Atoms(Segments(name, units, segment), marks)
         == Atoms(segment, marks + [name]) + Atoms(units, marks + [name])
    decreases |units|
  {
    hide AtomsOf, Atoms, Wrap;
    var inner := marks + [name];
    NoAtoms(inner);
    if units == [] {
      WrapAtoms(name, segment, marks);
    } else {
      AtomsFirst(units, inner);
      if units[0].Picture? {
        SegmentsKeepAtoms(name, units[1..], [], marks);
        CutAtoms(name, segment, units[0], Segments(name, units[1..], []), marks);
        PictureAtoms(units[0], inner);
      } else {
        SegmentsKeepAtoms(name, units[1..], segment + [units[0]], marks);
        AtomsConcat(segment, [units[0]], inner);
        AtomsSingle(units[0], inner);
      }
    }
  }

  lemma NoAtoms(marks: seq<string>)
    ensures Atoms([], marks) == []
  {
  }

  lemma AtomsFirst(ps: seq<Phrasing>, marks: seq<string>)
    requires ps != []
    ensures Atoms(ps, marks) == AtomsOf(ps[0], marks) + Atoms(ps[1..], marks)
  {
  }

  /** A segment, the picture that ends it, and what follows. */
  lemma CutAtoms(name: string, segment: seq<Phrasing>, picture: Phrasing, rest: seq<Phrasing>, marks: seq<string>)
    requires picture.Picture?
    ensures Atoms(Wrap(name, segment) + [picture] + rest, marks)
         == Atoms(segment, marks + [name]) + [Shot(picture.image)] + Atoms(rest, marks)
  {
    hide AtomsOf, Atoms, Wrap;
    WrapAtoms(name, segment, marks);
    AtomsConcat(Wrap(name, segment) + [picture], rest, marks);
    AtomsConcat(Wrap(name, segment), [picture], marks);
    PictureAtoms(picture, marks);
  }

  lemma AtomsSingle(p: Phrasing, marks: seq<string>)
    ensures Atoms([p], marks) == AtomsOf(p, marks)
  {
    assert [p][1..] == [];
  }

  lemma PictureAtoms(p: Phrasing, marks: seq<string>)
    requires p.Picture?
    ensures Atoms([p], marks) == [Shot(p.image)] == AtomsOf(p, marks)
  {
    assert [p][1..] == [];
  }

  /** Each unit is a picture or holds none. */
  lemma {:induction false} SplitSeparates(p: Phrasing)
    ensures forall u <- SplitPhrasing(p) :: u.Picture? || !AnyImage(u)
    decreases p, 0
  {
    if p.Mark? {
      SplitAllSeparates(p.children);
      SegmentsSeparate(p.name, SplitAll(p.children), []);
    }
  }

  lemma {:induction false} SplitAllSeparates(ps: seq<Phrasing>)
    ensures forall u <- SplitAll(ps) :: u.Picture? || !AnyImage(u)
    decreases ps, 1
  {
    if ps != [] {
      SplitSeparates(ps[0]);
      SplitAllSeparates(ps[1..]);
    }
  }

  lemma {:induction false} ImagesConcat(a: seq<Phrasing>, b: seq<Phrasing>)
    ensures ImagesIn(a + b) == ImagesIn(a) + ImagesIn(b)
    decreases |a|
  {
    if a == [] {
      assert a + b == b;
    } else {
      assert (a + b)[1..] == a[1..] + b;
      ImagesConcat(a[1..], b);
    }
  }

  lemma {:induction false} SegmentsSeparate(name: string, units: seq<Phrasing>, segment: seq<Phrasing>)
    requires (forall u <- units :: u.Picture? || !AnyImage(u)) && ImagesIn(segment) == []
    ensures forall u <- Segments(name, units, segment) :: u.Picture? || !AnyImage(u)
    decreases |units|
  {
    if units != [] {
      if units[0].Picture? {
        SegmentsSeparate(name, units[1..], []);
      } else {
        assert units[0] in units;
        ImagesConcat(segment, [units[0]]);
        assert [units[0]][1..] == [];
        SegmentsSeparate(name, units[1..], segment + [units[0]]);
      }
    }
  }

  /** No two units stand side by side without a picture. */
  predicate Whole(us: seq<Phrasing>) {
    forall i | 0 <= i < |us| - 1 :: us[i].Picture? || us[i + 1].Picture?
  }

  lemma {:induction false} SegmentsAreWhole(name: string, units: seq<Phrasing>, segment: seq<Phrasing>)
    ensures Whole(Segments(name, units, segment))
    decreases |units|
  {
    if units != [] {
      if units[0].Picture? {
        SegmentsAreWhole(name, units[1..], []);
      } else {
        SegmentsAreWhole(name, units[1..], segment + [units[0]]);
        assert Segments(name, units, segment) == Segments(name, units[1..], segment + [units[0]]);
      }
    }
  }

  /** A mark is cut at its pictures only. */
  lemma SplitIsWhole(p: Phrasing)
    ensures Whole(SplitPhrasing(p))
  {
    if p.Mark? {
      SegmentsAreWhole(p.name, SplitAll(p.children), []);
      assert SplitPhrasing(p) == Segments(p.name, SplitAll(p.children), []);
    }
  }

  function ShotOf(atom: Atom): seq<Image> {
    if atom.Shot? then [atom.image] else []
  }

  function ShotsOf(atoms: seq<Atom>): seq<Image> {
    if atoms == [] then [] else ShotOf(atoms[0]) + ShotsOf(atoms[1..])
  }

  lemma {:induction false} ShotsConcat(a: seq<Atom>, b: seq<Atom>)
    ensures ShotsOf(a + b) == ShotsOf(a) + ShotsOf(b)
    decreases |a|
  {
    hide ShotOf;
    if a == [] {
      assert a + b == b;
    } else {
      assert (a + b)[0] == a[0] && (a + b)[1..] == a[1..] + b;
      ShotsConcat(a[1..], b);
    }
  }

  lemma {:induction false} ImagesAreShots(ps: seq<Phrasing>, marks: seq<string>)
    ensures ImagesIn(ps) == ShotsOf(Atoms(ps, marks))
    decreases ps
  {
    if ps != [] {
      ShotsConcat(AtomsOf(ps[0], marks), Atoms(ps[1..], marks));
      ImagesAreShots(ps[1..], marks);
      match ps[0]
      case Mark(name, cs) => ImagesAreShots(cs, marks + [name]);
      case _ =>
    }
  }

  // ----- images of the units -----

  function UnitImage(u: Unit): seq<Image> {
    if u.ImageUnit? then [u.image] else []
  }

  lemma {:induction false} UnitImagesConcat(a: seq<Unit>, b: seq<Unit>)
    ensures UnitImages(a + b) == UnitImages(a) + UnitImages(b)
    decreases |a|
  {
    hide UnitImage;
    if a == [] {
      assert a + b == b;
    } else {
      assert (a + b)[0] == a[0] && (a + b)[1..] == a[1..] + b;
      UnitImagesConcat(a[1..], b);
    }
  }

  lemma {:induction false} UnitsKeepImages(ps: seq<Phrasing>, pr: Printers)
    requires forall u <- ps :: u.Picture? || !AnyImage(u)
    ensures UnitImages(UnitsOf(ps, pr)) == ImagesIn(ps)
    decreases |ps|
  {
    if ps != [] {
      assert ps[0] in ps;
      UnitsKeepImages(ps[1..], pr);
    }
  }

  lemma PhrasingUnitsKeepImages(ps: seq<Phrasing>, pr: Printers)
    ensures UnitImages(PhrasingUnits(ps, pr)) == ImagesIn(ps)
  {
    SplitAllSeparates(ps);
    UnitsKeepImages(SplitAll(ps), pr);
    SplitAllKeepsAtoms(ps, []);
    ImagesAreShots(ps, []);
    ImagesAreShots(SplitAll(ps), []);
  }

  lemma BetweenHasNone(index: nat, separator: string)
    ensures UnitImages(Between(index, separator)) == []
  {
  }

  /** A separator, one part, and the rest. */
  lemma PartImages(index: nat, separator: string, part: seq<Unit>, rest: seq<Unit>)
    ensures UnitImages(Between(index, separator) + part + rest) == UnitImages(part) + UnitImages(rest)
  {
    UnitImagesConcat(Between(index, separator) + part, rest);
    UnitImagesConcat(Between(index, separator), part);
    BetweenHasNone(index, separator);
    assert [] + UnitImages(part) == UnitImages(part);
  }

  lemma {:induction false} CellUnitsKeepImages(cells: seq<seq<Phrasing>>, index: nat, pr: Printers)
    ensures UnitImages(CellUnits(cells, index, pr)) == CellImages(cells)
    decreases |cells|
  {
    hide PhrasingUnits, UnitImages;
    if cells == [] {
      NoUnits();
    } else {
      PhrasingUnitsKeepImages(cells[0], pr);
      CellUnitsKeepImages(cells[1..], index + 1, pr);
      PartImages(index, " | ", PhrasingUnits(cells[0], pr), CellUnits(cells[1..], index + 1, pr));
    }
  }

  lemma NoUnits()
    ensures UnitImages([]) == []
  {
  }

  lemma {:induction false} RowUnitsKeepImages(rows: seq<seq<seq<Phrasing>>>, index: nat, pr: Printers)
    ensures UnitImages(RowUnits(rows, index, pr)) == RowImages(rows)
    decreases |rows|
  {
    hide CellUnits, CellImages, UnitImages;
    if rows == [] {
      NoUnits();
    } else {
      CellUnitsKeepImages(rows[0], 0, pr);
      RowUnitsKeepImages(rows[1..], index + 1, pr);
      PartImages(index, "\n", CellUnits(rows[0], 0, pr), RowUnits(rows[1..], index + 1, pr));
    }
  }

  lemma {:induction false} FlowUnitsKeepImages(fs: seq<Flow>, index: nat, pr: Printers)
    ensures UnitImages(FlowUnits(fs, index, pr)) == FlowImages(fs)
    decreases fs
  {
    hide UnitImages, ContentUnits, NestedImages;
    if fs == [] {
      NoUnits();
    } else {
      ContentUnitsKeepImages(fs[0], pr);
      FlowUnitsKeepImages(fs[1..], index + 1, pr);
      PartImages(index, "\n", ContentUnits(fs[0], pr), FlowUnits(fs[1..], index + 1, pr));
    }
  }

  lemma {:induction false} ItemUnitsKeepImages(items: seq<Item>, index: nat, pr: Printers)
    ensures UnitImages(ItemUnits(items, index, pr)) == ItemImages(items)
    decreases items
  {
    hide UnitImages, FlowUnits, FlowImages;
    if items == [] {
      NoUnits();
    } else {
      FlowUnitsKeepImages(items[0].flow, 0, pr);
      ItemUnitsKeepImages(items[1..], index + 1, pr);
      PartImages(index, "\n", FlowUnits(items[0].flow, 0, pr), ItemUnits(items[1..], index + 1, pr));
    }
  }

  /** Flattening any flow content to units keeps its images, each once and in order. */
  lemma {:induction false} ContentUnitsKeepImages(f: Flow, pr: Printers)
    ensures UnitImages(ContentUnits(f, pr)) == NestedImages(f)
    decreases f
  {
    match f
    case Paragraph(ps) => PhrasingUnitsKeepImages(ps, pr);
    case Heading(_, ps) => PhrasingUnitsKeepImages(ps, pr);
    case Table(rows) => RowUnitsKeepImages(rows, 0, pr);
    case List(_, items) => ItemUnitsKeepImages(items, 0, pr);
    case Blockquote(fs) => FlowUnitsKeepImages(fs, 0, pr);
    case _ =>
  }
}
