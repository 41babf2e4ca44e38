/** The server's own property table, the proof that it satisfies `Theme.GrammarOk` with any
    table of colour names, and an input whose canonical text outgrows a limit. */
module ThemeTable {
  import opened Text
  import opened Scanner
  import opened Theme
  import Values
  import FolderNames

  /** A property name, or the end of one: lower-case letters, digits and hyphens. */
  type Name = s: string | NameText(s) witness "a"

  type ColorName = s: string | s != [] && Values.Letters(s) witness "a"

  const SCHEME: Name := "--devsite-scheme"
  const FOLDERS: Name := "--devsite-folders"
  const OPEN_FOLDERS: Name := "--devsite-open-folders"
  const FOLDER_ORDER: Name := "--devsite-folder-order"

  const SCHEMES: seq<Name> := ["light", "dark", "auto"]
  const FOLDER_STATES: seq<Name> := ["open", "closed"]
  const SHADOWS: seq<Name> := ["unset"]
  const WEIGHTS: seq<Name> := ["400", "700"]
  const DECORATIONS: seq<Name> := ["none", "underline"]

  // Pico's own properties, in table order, without their common prefix.

  const SURFACES_1: seq<Name> := ["background-color", "color", "muted-color"]
  const SURFACES_2: seq<Name> := ["muted-border-color", "border-color"]
  const SURFACES_3: seq<Name> := ["text-selection-color"]

  const ACCENTS_1: seq<Name> := ["primary", "primary-background", "primary-hover"]
  const ACCENTS_2: seq<Name> := ["primary-hover-background", "primary-inverse"]
  const ACCENTS_3: seq<Name> := ["primary-underline", "primary-focus", "secondary"]
  const ACCENTS_4: seq<Name> := ["secondary-background", "secondary-hover"]
  const ACCENTS_5: seq<Name> := ["secondary-inverse", "contrast", "contrast-background"]
  const ACCENTS_6: seq<Name> := ["contrast-inverse"]

  const HEADINGS_1: seq<Name> := ["h1-color", "h2-color", "h3-color", "h4-color", "h5-color"]
  const HEADINGS_2: seq<Name> := ["h6-color"]

  const BLOCKS_1: seq<Name> := ["card-background-color", "card-border-color"]
  const BLOCKS_2: seq<Name> := ["card-sectioning-background-color"]
  const BLOCKS_3: seq<Name> := ["code-background-color", "code-color"]
  const BLOCKS_4: seq<Name> := ["mark-background-color", "mark-color"]
  const BLOCKS_5: seq<Name> := ["blockquote-border-color"]
  const BLOCKS_6: seq<Name> := ["accordion-active-summary-color"]
  const BLOCKS_7: seq<Name> := ["accordion-close-summary-color"]
  const BLOCKS_8: seq<Name> := ["accordion-open-summary-color", "ins-color", "del-color"]

  const FORMS_1: seq<Name> := ["form-element-background-color"]
  const FORMS_2: seq<Name> := ["form-element-border-color", "form-element-color"]

  const METRICS_1: seq<Name> := ["border-radius", "border-width", "outline-width", "spacing"]
  const METRICS_2: seq<Name> := ["block-spacing-vertical", "block-spacing-horizontal"]
  const METRICS_3: seq<Name> := ["typography-spacing-vertical"]
  const METRICS_4: seq<Name> := ["form-element-spacing-vertical"]
  const METRICS_5: seq<Name> := ["form-element-spacing-horizontal"]
  const METRICS_6: seq<Name> := ["nav-element-spacing-vertical"]
  const METRICS_7: seq<Name> := ["nav-element-spacing-horizontal"]
  const METRICS_8: seq<Name> := ["text-underline-offset", "font-size"]

  const BOX_SHADOW: seq<Name> := ["box-shadow"]
  const LINE_HEIGHT: seq<Name> := ["line-height"]
  const FONT_WEIGHT: seq<Name> := ["font-weight"]
  const TEXT_DECORATION: seq<Name> := ["text-decoration"]

  const COLORS: seq<Name> :=
    SURFACES_1 + SURFACES_2 + SURFACES_3
    + ACCENTS_1 + ACCENTS_2 + ACCENTS_3 + ACCENTS_4 + ACCENTS_5 + ACCENTS_6
    + HEADINGS_1 + HEADINGS_2
    + BLOCKS_1 + BLOCKS_2 + BLOCKS_3 + BLOCKS_4 + BLOCKS_5 + BLOCKS_6 + BLOCKS_7 + BLOCKS_8
    + FORMS_1 + FORMS_2

  const LENGTHS: seq<Name> :=
    METRICS_1 + METRICS_2 + METRICS_3 + METRICS_4 + METRICS_5 + METRICS_6 + METRICS_7 + METRICS_8

  /** Pico properties of one kind. */
  function Pico(names: seq<Name>, kind: Kind): (properties: seq<Property>)
    ensures |properties| == |names|
    ensures forall i :: 0 <= i < |names| ==> properties[i] == Property("--pico-" + names[i], kind)
  {
    seq(|names|, i requires 0 <= i < |names| => Property("--pico-" + names[i], kind))
  }

  function Controls(): seq<Property> {
    [Property(SCHEME, Keyword(SCHEMES)), Property(FOLDERS, Keyword(FOLDER_STATES)),
     Property(OPEN_FOLDERS, Folders), Property(FOLDER_ORDER, Folders)]
  }

  /** The table in parts, in the server's order. */
  function Parts(): seq<seq<Property>> {
    [Controls(), Pico(COLORS, Color), Pico(BOX_SHADOW, Keyword(SHADOWS)), Pico(LENGTHS, Length),
     Pico(LINE_HEIGHT, Number), Pico(FONT_WEIGHT, Keyword(WEIGHTS)),
     Pico(TEXT_DECORATION, Keyword(DECORATIONS))]
  }

  function Flatten(parts: seq<seq<Property>>): seq<Property> {
    if parts == [] then [] else parts[0] + Flatten(parts[1..])
  }

  /** Every presentation property with its kind. */
  function Properties(): seq<Property> {
    Flatten(Parts())
  }

  /** The server's grammar, with its table of colour names as a parameter. */
  function ServerGrammar(colors: seq<ColorName>): Grammar {
    Grammar(Properties(), colors)
  }

  // -- the table is well formed ------------------------------------------------------------

  ghost predicate AllOk(properties: seq<Property>) {
    forall i :: 0 <= i < |properties| ==> PropertyOk(properties[i])
  }

  lemma {:induction false} AllOkFlatten(parts: seq<seq<Property>>)
    requires forall i :: 0 <= i < |parts| ==> AllOk(parts[i])
    ensures AllOk(Flatten(parts))
  {
    if parts != [] { AllOkFlatten(parts[1..]); }
  }

  lemma PicoOk(names: seq<Name>, kind: Kind)
    requires !kind.Folders?
    requires kind.Keyword? ==> forall i :: 0 <= i < |kind.allowed| ==> NameText(kind.allowed[i])
    ensures AllOk(Pico(names, kind))
  {
    assert NameText("--pico-");
    forall i | 0 <= i < |names| ensures PropertyOk(Pico(names, kind)[i]) {
      assert NameText(names[i]);
    }
  }

  lemma ControlsOk()
    ensures AllOk(Controls())
  {
    assert OPEN_FOLDERS[2] == 'd' && FOLDER_ORDER[2] == 'd' && "--pico-"[2] == 'p';
    assert !HasPrefix(OPEN_FOLDERS, "--pico-") && !HasPrefix(FOLDER_ORDER, "--pico-");
  }

  lemma AllOkParts(a: seq<Property>, b: seq<Property>, c: seq<Property>, d: seq<Property>, e: seq<Property>,
                   f: seq<Property>, g: seq<Property>)
    requires AllOk(a) && AllOk(b) && AllOk(c) && AllOk(d) && AllOk(e) && AllOk(f) && AllOk(g)
    ensures AllOk(Flatten([a, b, c, d, e, f, g]))
  {
    AllOkFlatten([a, b, c, d, e, f, g]);
  }

  lemma PropertiesOk()
    ensures AllOk(Properties())
  {
    ControlsOk();
    PicoOk(COLORS, Color);
    PicoOk(BOX_SHADOW, Keyword(SHADOWS));
    PicoOk(LENGTHS, Length);
    PicoOk(LINE_HEIGHT, Number);
    PicoOk(FONT_WEIGHT, Keyword(WEIGHTS));
    PicoOk(TEXT_DECORATION, Keyword(DECORATIONS));
    AllOkParts(Controls(), Pico(COLORS, Color), Pico(BOX_SHADOW, Keyword(SHADOWS)), Pico(LENGTHS, Length),
               Pico(LINE_HEIGHT, Number), Pico(FONT_WEIGHT, Keyword(WEIGHTS)), Pico(TEXT_DECORATION, Keyword(DECORATIONS)));
  }

  /** The server's table is what the theorems about `Theme` ask for. */
  lemma TableOk(colors: seq<ColorName>)
    ensures GrammarOk(ServerGrammar(colors))
  {
    PropertiesOk();
  }

  // -- canonical text can outgrow its limit -----------------------------------------------------

  /** Sixty-four folder names of twenty-three characters, forty-five bytes each. */
  function Filler(i: nat): string
    requires i < 64
  {
    seq(22, _ => (0x100 + i) as char) + "a"
  }

  function Fillers(): (names: seq<string>)
    ensures |names| == 64
    ensures forall i :: 0 <= i < 64 ==> names[i] == Filler(i)
  {
    seq(64, i requires 0 <= i < 64 => Filler(i))
  }

  /** A source that assigns them to a property, without spaces after the commas. */
  function Outgrowing(property: string): string {
    property + [':'] + FolderNames.RenderWith(Fillers(), ",")
  }

  lemma {:induction false} BytesUniform(s: string, n: nat)
    requires forall i :: 0 <= i < |s| ==> CharBytes(s[i]) == n
    ensures Bytes(s) == |s| * n
  {
    if s != [] { BytesUniform(s[1..], n); }
  }

  lemma {:induction false} EscapePlain(s: string)
    requires NoChar(s, '"') && NoChar(s, '\\')
    ensures FolderNames.Escape(s) == s
  {
    if s != [] {
      EscapePlain(s[1..]);
      assert [s[0]] + s[1..] == s;
    }
  }

  lemma FillerBytes(i: nat)
    requires i < 64
    ensures Bytes(FolderNames.Quote(Filler(i))) == 47 && FolderNames.ValidName(Filler(i))
  {
    var s := Filler(i);
    var body := seq(22, _ => (0x100 + i) as char);
    BytesUniform(body, 2);
    BytesConcat(body, "a");
    EscapePlain(s);
    FolderNames.QuoteBytes(s);
    TrimTrimmed(s);
  }

  /** Every name below takes 47 bytes with its quotes. */
  lemma {:induction false} RenderBytes(names: seq<string>, sep: string)
    requires names != []
    requires forall i :: 0 <= i < |names| ==> Bytes(FolderNames.Quote(names[i])) == 47
    requires Bytes(sep) == 1 || Bytes(sep) == 2
    ensures var length := Bytes(FolderNames.RenderWith(names, sep));
            length == if Bytes(sep) == 1 then 48 * |names| - 1 else 49 * |names| - 2
  {
    if |names| == 1 {
      assert FolderNames.RenderWith(names, sep) == FolderNames.Quote(names[0]);
    } else {
      var rest := FolderNames.RenderWith(names[1..], sep);
      FolderNames.RenderCons(names, sep);
      RenderBytes(names[1..], sep);
      BytesConcat3(FolderNames.Quote(names[0]), sep, rest);
    }
  }

  lemma SeparatorBytes()
    ensures Bytes(",") == 1 && Bytes(", ") == 2
  {
    assert ", "[1..] == " " && ","[1..] == "";
  }

  lemma FillersValid()
    ensures FolderNames.ValidNames(Fillers())
    ensures forall i :: 0 <= i < 64 ==> Bytes(FolderNames.Quote(Fillers()[i])) == 47
  {
    var names := Fillers();
    forall i | 0 <= i < 64
      ensures Bytes(FolderNames.Quote(names[i])) == 47 && FolderNames.ValidName(names[i])
      ensures names[i][0] == (0x100 + i) as char
    {
      FillerBytes(i);
    }
  }

  lemma FillersBytes()
    ensures Bytes(FolderNames.RenderWith(Fillers(), ",")) == 3071
    ensures Bytes(FolderNames.Render(Fillers())) == 3134
  {
    FillersValid();
    SeparatorBytes();
    RenderBytes(Fillers(), ",");
    RenderBytes(Fillers(), ", ");
  }

  lemma {:induction false} SplitWhole(q: Quote, s: string)
    requires NoSplit(q, s)
    ensures Split(q, s) == [s]
    decreases |s|
  {
    if s != [] {
      SplitWhole(Step(q, s[0]), s[1..]);
      assert [s[0]] + s[1..] == s;
    }
  }

  lemma SingleScans(name: string, raw: string)
    requires NameText(name) && Settled(raw)
    ensures var x := name + [':'] + raw;
            && Strip(Outside, x) == Ok(x) && Split(Outside, x) == [x]
            && FindOutside(Outside, x, IsUnwanted).None? && IsTrimmed(x)
  {
    NameTextInert(name);
    InertPlain([':'], IsUnwanted);
    InertConcat(name, [':'], IsUnwanted);
    InertConcat(name + [':'], raw, IsUnwanted);
    StripFixed(Outside, name + [':'] + raw);
    SplitWhole(Outside, name + [':'] + raw);
  }

  lemma SingleChunk(g: Grammar, name: string, raw: string, kind: Kind)
    requires NameText(name) && Settled(raw) && Lookup(g.properties, name) == Some(kind)
    requires Canonicalize(g, kind, raw).Some?
    ensures ParseChunk(g, name + [':'] + raw) == Ok(Some(Declaration(name, Canonicalize(g, kind, raw).value)))
  {
    var x := name + [':'] + raw;
    SingleScans(name, raw);
    NameTextInert(name);
    SplitOnceUnique(name, ':', raw);
    TrimTrimmed(x);
    TrimTrimmed(name);
    TrimTrimmed(raw);
    ParseSides(g, x, name, raw, kind);
  }

  lemma ParseOneChunk(g: Grammar, x: string, d: Declaration)
    requires Bytes(x) <= MAX_INPUT && Strip(Outside, x) == Ok(x) && Split(Outside, x) == [x]
    requires ParseChunk(g, x) == Ok(Some(d))
    ensures Parse(g, x) == Ok([d])
  {
    FoldFirst(g, x, [], []);
    assert [x] + [] == [x];
    assert [] + [d] == [d];
  }

  /** A text that is one declaration is read as that declaration. */
  lemma ParseSingle(g: Grammar, name: string, raw: string, kind: Kind)
    requires NameText(name) && Settled(raw) && Lookup(g.properties, name) == Some(kind)
    requires Canonicalize(g, kind, raw).Some?
    requires Bytes(name) + 1 + Bytes(raw) <= MAX_INPUT
    ensures Parse(g, name + [':'] + raw) == Ok([Declaration(name, Canonicalize(g, kind, raw).value)])
  {
    BytesConcat3(name, [':'], raw);
    assert Bytes([':']) == 1 by { assert [':'][1..] == []; }
    SingleScans(name, raw);
    SingleChunk(g, name, raw, kind);
    ParseOneChunk(g, name + [':'] + raw, Declaration(name, Canonicalize(g, kind, raw).value));
  }

  lemma ListSettled(names: seq<string>)
    requires FolderNames.ValidNames(names)
    ensures Settled(FolderNames.RenderWith(names, ","))
    ensures FolderNames.CanonicalList(FolderNames.RenderWith(names, ",")) == Some(FolderNames.Render(names))
  {
    FolderNames.ReadArrayOfRender(names, ",");
    FolderNames.RenderedInert(names, ",", IsUnwanted);
    FolderNames.RenderedTrimmed(names, ",");
  }

  /** The round trip does fail past its limits: this text is accepted, and the canonical
      text it is stored as is refused. */
  lemma StoredTextCanBeRefused(g: Grammar, property: string)
    requires GrammarOk(g) && Lookup(g.properties, property) == Some(Folders)
    requires Bytes(property) <= 1000
    ensures Parse(g, Outgrowing(property)).Ok?
    ensures Parse(g, ToCss(Parse(g, Outgrowing(property)).value)) != Parse(g, Outgrowing(property))
  {
    var raw := FolderNames.RenderWith(Fillers(), ",");
    KindOk(g, property);
    FillersValid();
    ListSettled(Fillers());
    FillersBytes();
    ParseSingle(g, property, raw, Folders);
    var ds := Parse(g, Outgrowing(property)).value;
    assert ds[0] == Declaration(property, FolderNames.Render(Fillers()));
    assert !FitsLayout(g, ds[0]);
    RoundTrip(g, Outgrowing(property));
  }

  lemma {:induction false} LookupInFirst(a: seq<Property>, b: seq<Property>, name: string)
    requires Lookup(a, name).Some?
    ensures Lookup(a + b, name) == Lookup(a, name)
  {
    assert (a + b)[1..] == a[1..] + b;
    if a[0].name != name { LookupInFirst(a[1..], b, name); }
  }

  lemma FolderOrderBytes()
    ensures Bytes(FOLDER_ORDER) <= 1000
  {
    BytesUniform(FOLDER_ORDER, 1);
  }

  lemma FolderOrderInControls()
    ensures Lookup(Controls(), FOLDER_ORDER) == Some(Folders)
  {
    var p := Controls();
    assert SCHEME[10] == 's' && FOLDERS[10] == 'f' && OPEN_FOLDERS[10] == 'o' && FOLDER_ORDER[10] == 'f';
    assert |FOLDERS| != |FOLDER_ORDER|;
    assert p[1..][0] == p[1] && p[1..][1..][0] == p[2] && p[1..][1..][1..][0] == p[3];
  }

  lemma ControlsFirst()
    ensures Properties() == Controls() + Flatten(Parts()[1..])
  {
    assert Parts()[0] == Controls();
  }

  lemma ServerHasFolderOrder(colors: seq<ColorName>)
    ensures Lookup(ServerGrammar(colors).properties, FOLDER_ORDER) == Some(Folders)
    ensures Bytes(FOLDER_ORDER) <= 1000
  {
    ControlsFirst();
    FolderOrderInControls();
    LookupInFirst(Controls(), Flatten(Parts()[1..]), FOLDER_ORDER);
    FolderOrderBytes();
  }

  /** In particular the server's own table has a property whose stored text it can refuse. */
  lemma ServerTextCanBeRefused(colors: seq<ColorName>) returns (input: string)
    ensures var g := ServerGrammar(colors);
            Parse(g, input).Ok? && Parse(g, ToCss(Parse(g, input).value)) != Parse(g, input)
  {
    TableOk(colors);
    ServerHasFolderOrder(colors);
    StoredTextCanBeRefused(ServerGrammar(colors), FOLDER_ORDER);
    input := Outgrowing(FOLDER_ORDER);
  }
}
