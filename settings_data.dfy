/**
 * The SavedSettings instance as a value: the hidden component type names,
 * nine colours, twenty-six switches and three numbers, with their
 * defaults, and the pure meaning of writing it to and reading it from the
 * editor preferences.
 */
module SettingsData {
  import opened Wrappers
  import opened Engine
  import opened SettingsFormat

  datatype BoolSetting =
    | Enabled | ColorsEnabled | IconsEnabled | EnableContextClick | EnableDragToggle
    | ColorOneEnabled | ColorTwoEnabled | ColorThreeEnabled | GuideLinesEnabled
    | RowColoringOddEnabled | RowColoringEvenEnabled | ShowGameObjectIcon
    | UseCustomGameObjectIcon | ShowTransformIcon | ShowNonBehaviourIcons
    | LinkCursorOnHover | AlwaysShowIcons | IconBackgroundColorEnabled
    | IconBackgroundOverlapOnly | LabelsEnabled | EnableLabelContextClick
    | TagLabelEnabled | DisplayUntaggedLabel | LayerLabelEnabled | DisplayLayerIndex
    | DisplayDefaultLayerLabel

  datatype ColorSetting =
    | RowOddColor | RowEvenColor | ColorOne | ColorTwo | ColorThree | GuideLinesColor
    | IconTintColor | IconFadedTintColor | IconBackgroundColor

  /** The SavedFloat values; widths and offsets are whole numbers here. */
  datatype FloatSetting = GuiXOffset | TagLabelWidth | LayerLabelWidth

  /** The initial value of each switch (SavedSettings.cs field initialisers). */
  function DefaultBool(f: BoolSetting): bool {
    f !in {ColorOneEnabled, ColorTwoEnabled, ColorThreeEnabled, RowColoringOddEnabled,
           ShowTransformIcon, LinkCursorOnHover, AlwaysShowIcons, DisplayUntaggedLabel,
           DisplayLayerIndex, DisplayDefaultLayerLabel}
  }

  function DefaultColor(f: ColorSetting): Color {
    match f
    case RowOddColor => Color(0.5, 0.5, 1.0, 0.07)
    case RowEvenColor => Color(0.0, 0.0, 0.0, 0.07)
    case IconFadedTintColor => Color(1.0, 1.0, 1.0, 0.5)
    case IconBackgroundColor => Color(0.22, 0.22, 0.22, 1.0)
    case _ => White
  }

  function DefaultNumber(f: FloatSetting): int {
    match f
    case GuiXOffset => 0
    case TagLabelWidth => 75
    case LayerLabelWidth => 75
  }

  /**
   * One SavedSettings instance. Each saved field is an entry keyed by its
   * name; a field without an entry holds its initial value, as a field the
   * JSON text does not mention keeps its initialiser.
   */
  datatype Settings = Settings(
    hiddenIconTypes: seq<string>,
    switches: map<BoolSetting, bool>,
    colors: map<ColorSetting, Color>,
    numbers: map<FloatSetting, int>)
  {
    function Bool(f: BoolSetting): bool {
      if f in switches then switches[f] else DefaultBool(f)
    }

    function ColorOf(f: ColorSetting): Color {
      if f in colors then colors[f] else DefaultColor(f)
    }

    function Number(f: FloatSetting): int {
      if f in numbers then numbers[f] else DefaultNumber(f)
    }

    predicate GetColorsEnabled() { Bool(Enabled) && Bool(ColorsEnabled) }
    predicate GetIconsEnabled() { Bool(Enabled) && Bool(IconsEnabled) }
    predicate GetLabelsEnabled() { Bool(Enabled) && Bool(LabelsEnabled) }
    predicate GetRowColoringEnabled() { Bool(RowColoringOddEnabled) || Bool(RowColoringEvenEnabled) }

    /** The instance after one switch's `_value` is assigned. */
    function WithBool(f: BoolSetting, v: bool): (r: Settings)
      ensures r.Bool(f) == v
      ensures forall g :: g != f ==> r.Bool(g) == Bool(g)
      ensures forall c :: r.ColorOf(c) == ColorOf(c)
      ensures forall n :: r.Number(n) == Number(n)
      ensures r.hiddenIconTypes == hiddenIconTypes
    {
      this.(switches := switches[f := v])
    }

    /** The instance after one colour's components are assigned. */
    function WithColor(f: ColorSetting, c: Color): (r: Settings)
      ensures r.ColorOf(f) == c
      ensures forall g :: g != f ==> r.ColorOf(g) == ColorOf(g)
      ensures forall b :: r.Bool(b) == Bool(b)
      ensures forall n :: r.Number(n) == Number(n)
      ensures r.hiddenIconTypes == hiddenIconTypes
    {
      this.(colors := colors[f := c])
    }

    /** The instance after one number's `_value` is assigned. */
    function WithNumber(f: FloatSetting, v: int): (r: Settings)
      ensures r.Number(f) == v
      ensures forall g :: g != f ==> r.Number(g) == Number(g)
      ensures forall b :: r.Bool(b) == Bool(b)
      ensures forall c :: r.ColorOf(c) == ColorOf(c)
      ensures r.hiddenIconTypes == hiddenIconTypes
    {
      this.(numbers := numbers[f := v])
    }

    /** The instance after one hidden type name's `_value` is assigned. */
    function WithHiddenType(i: nat, name: string): (r: Settings)
      requires i < |hiddenIconTypes|
      ensures |r.hiddenIconTypes| == |hiddenIconTypes| && r.hiddenIconTypes[i] == name
      ensures forall k :: 0 <= k < |hiddenIconTypes| && k != i ==> r.hiddenIconTypes[k] == hiddenIconTypes[k]
      ensures forall b :: r.Bool(b) == Bool(b)
      ensures forall c :: r.ColorOf(c) == ColorOf(c)
      ensures forall n :: r.Number(n) == Number(n)
    {
      this.(hiddenIconTypes := hiddenIconTypes[i := name])
    }
  }

  /** A fresh `new SavedSettings()`: every field at its initialiser. */
  function DefaultSettings(): Settings {
    Settings(["MeshFilter"], map[], map[], map[])
  }

  /** The defaults the settings start from, as the field initialisers give them. */
  lemma DefaultValues()
    ensures var d := DefaultSettings();
      && d.hiddenIconTypes == ["MeshFilter"]
      && (forall f :: d.Bool(f) <==> f !in {ColorOneEnabled, ColorTwoEnabled, ColorThreeEnabled,
            RowColoringOddEnabled, ShowTransformIcon, LinkCursorOnHover, AlwaysShowIcons,
            DisplayUntaggedLabel, DisplayLayerIndex, DisplayDefaultLayerLabel})
      && d.ColorOf(RowOddColor) == Color(0.5, 0.5, 1.0, 0.07) && d.ColorOf(RowEvenColor) == Color(0.0, 0.0, 0.0, 0.07)
      && d.ColorOf(IconFadedTintColor) == Color(1.0, 1.0, 1.0, 0.5) && d.ColorOf(IconBackgroundColor) == Color(0.22, 0.22, 0.22, 1.0)
      && (forall f :: f in {ColorOne, ColorTwo, ColorThree, GuideLinesColor, IconTintColor} ==> d.ColorOf(f) == White)
      && d.Number(GuiXOffset) == 0 && d.Number(TagLabelWidth) == 75 && d.Number(LayerLabelWidth) == 75
      && d.GetColorsEnabled() && d.GetIconsEnabled() && d.GetLabelsEnabled() && d.GetRowColoringEnabled()
  {
  }

  /** The master switch gates colours, icons and labels: switched off, all
      three are off whatever their own switches say; switched on, each
      follows its own switch. Row colouring does not depend on it. */
  lemma MasterSwitch(s: Settings)
    ensures var off := s.WithBool(Enabled, false);
      && !off.GetColorsEnabled() && !off.GetIconsEnabled() && !off.GetLabelsEnabled()
      && (off.GetRowColoringEnabled() <==> s.GetRowColoringEnabled())
    ensures var on := s.WithBool(Enabled, true);
      && (on.GetColorsEnabled() <==> s.Bool(ColorsEnabled))
      && (on.GetIconsEnabled() <==> s.Bool(IconsEnabled))
      && (on.GetLabelsEnabled() <==> s.Bool(LabelsEnabled))
      && (on.GetRowColoringEnabled() <==> s.GetRowColoringEnabled())
  {
  }

  // -----------------------------------------------------------------------
  // Reading and writing the preferences entry

  const PrefsKey := "HierarchyPlusSettingsJSON"
  const MainTag := "MAIN"

  /** Everything the store delegates: the byte codecs and JsonUtility. */
  datatype Codec = Codec(
    bytes: ByteCodecs,
    toJson: Settings -> string,
    fromJson: string -> Option<Settings>)

  /** Two instances with the same value in every saved field. JsonUtility
      writes a field that holds its initial value whether or not it was
      ever assigned, so a round trip is exact only up to this. */
  predicate SameValues(a: Settings, b: Settings) {
    && a.hiddenIconTypes == b.hiddenIconTypes
    && (forall f :: a.Bool(f) == b.Bool(f))
    && (forall f :: a.ColorOf(f) == b.ColorOf(f))
    && (forall f :: a.Number(f) == b.Number(f))
  }

  /** The byte codecs invert each other and JsonUtility reads back the
      values it wrote for the instance `s` at hand. (A round trip for every
      instance at once could not hold: colours are reals, and there are
      only countably many texts.) */
  ghost predicate ValidCodec(c: Codec, s: Settings) {
    && Inverse(c.bytes)
    && c.fromJson(c.toJson(s)).Some? && SameValues(c.fromJson(c.toJson(s)).value, s)
  }

  /** Any instance has a JSON codec that reads it back, so the round trip
      lemmas below are not vacuous. */
  lemma ValidCodecExists(b: ByteCodecs, s: Settings)
    requires Inverse(b)
    ensures ValidCodec(Codec(b, _ => "{}", _ => Some(s)), s)
    ensures SafePayload("{}")
  {
  }

  /** The exceptions Load catches. */
  datatype LoadError = Undecodable(cause: DecodeError) | DuplicateTag(tag: string) | BadJson

  /** EditorPrefs.GetString(PrefsKey, string.Empty). */
  function StoredText(prefs: map<string, string>): string {
    if PrefsKey in prefs then prefs[PrefsKey] else ""
  }

  /** The text Save compresses. */
  function MainText(c: Codec, s: Settings): string {
    SectionText(MainTag, c.toJson(s))
  }

  /** The preferences entry Save writes. */
  function Persisted(c: Codec, s: Settings): string {
    Compressed(c.bytes, MainText(c, s))
  }

  /** The uncompressed text Load scans: blank text is used as it is. */
  function FullText(c: Codec, stored: string): Result<string, DecodeError> {
    if IsBlank(stored) then Ok(stored) else Decompressed(c.bytes, stored)
  }

  /** The tag table of the uncompressed text. */
  function Table(full: string): Result<map<string, string>, string> {
    if full == "" then Ok(map[]) else SectionTable(Matches(full, 0))
  }

  /** What Load finds: the settings of the MAIN section, no MAIN section, or
      the exception it catches. */
  function LoadOutcome(c: Codec, stored: string): Result<Option<Settings>, LoadError> {
    match FullText(c, stored)
    case Err(e) => Err(Undecodable(e))
    case Ok(full) =>
      match Table(full)
      case Err(tag) => Err(DuplicateTag(tag))
      case Ok(table) =>
        if MainTag !in table then Ok(None)
        else match c.fromJson(table[MainTag])
          case None => Err(BadJson)
          case Some(s) => Ok(Some(s))
  }

  /** The instance after Load, given the one before it (`_data ??= new`). */
  function AfterLoad(c: Codec, before: Option<Settings>, prefs: map<string, string>): Settings {
    match LoadOutcome(c, StoredText(prefs))
    case Ok(Some(s)) => s
    case Ok(None) => before.GetOr(DefaultSettings())
    case Err(_) => DefaultSettings()
  }

  /** The instance the Data property returns. */
  function Current(c: Codec, data: Option<Settings>, prefs: map<string, string>): Settings {
    if data.Some? then data.value else AfterLoad(c, None, prefs)
  }

  lemma MainTagIsWord()
    ensures |MainTag| > 0 && forall m :: 0 <= m < |MainTag| ==> IsWordChar(MainTag[m])
  {
  }

  /** What Save writes is read back by a later Load. */
  lemma PersistRoundTrip(c: Codec, s: Settings)
    requires ValidCodec(c, s) && SafePayload(c.toJson(s)) && |c.bytes.utf8Encode(MainText(c, s))| < 0x8000_0000
    ensures LoadOutcome(c, Persisted(c, s)) == Ok(Some(c.fromJson(c.toJson(s)).value))
    ensures SameValues(LoadOutcome(c, Persisted(c, s)).value.value, s)
  {
    var text := MainText(c, s);
    CompressionRoundTrip(c.bytes, text);
    assert FullText(c, Persisted(c, s)) == Ok(text);
    MainTagIsWord();
    SectionRoundTrip(MainTag, c.toJson(s));
    DistinctTagsTable([Section(MainTag, c.toJson(s))]);
  }

  /** A fresh session that reads the entry Save wrote sees the saved settings. */
  lemma SaveThenLoad(c: Codec, s: Settings, prefs: map<string, string>)
    requires ValidCodec(c, s) && SafePayload(c.toJson(s)) && |c.bytes.utf8Encode(MainText(c, s))| < 0x8000_0000
    ensures SameValues(Current(c, None, prefs[PrefsKey := Persisted(c, s)]), s)
  {
    PersistRoundTrip(c, s);
  }

  lemma {:induction false} BlankHasNoSections(s: string, i: nat)
    requires IsBlank(s) && i <= |s|
    ensures Matches(s, i) == []
    decreases |s| - i
  {
    if i < |s| {
      assert !IsWordChar(s[i]);
      assert WordRunEnd(s, i) == i;
      BlankHasNoSections(s, i + 1);
    }
  }

  /** No entry, or a blank one, gives the defaults. */
  lemma BlankEntryGivesDefaults(c: Codec, prefs: map<string, string>)
    requires IsBlank(StoredText(prefs))
    ensures LoadOutcome(c, StoredText(prefs)) == Ok(None)
    ensures Current(c, None, prefs) == DefaultSettings()
  {
    var stored := StoredText(prefs);
    if stored != "" {
      BlankHasNoSections(stored, 0);
    }
  }

  /** Each failure Load catches leaves the defaults, whatever instance there
      was: an entry that is not Base64, a buffer shorter than its prefix, a
      negative length, a corrupt stream, and a MAIN section JsonUtility
      rejects. */
  lemma FailedLoadGivesDefaults(c: Codec, before: Option<Settings>, prefs: map<string, string>)
    ensures var stored := StoredText(prefs);
      !IsBlank(stored) && c.bytes.fromBase64(stored).None? ==>
        LoadOutcome(c, stored) == Err(Undecodable(NotBase64)) && AfterLoad(c, before, prefs) == DefaultSettings()
    ensures var stored := StoredText(prefs);
      !IsBlank(stored) && c.bytes.fromBase64(stored).Some? && |c.bytes.fromBase64(stored).value| < 4 ==>
        LoadOutcome(c, stored) == Err(Undecodable(TooShort)) && AfterLoad(c, before, prefs) == DefaultSettings()
    ensures var stored := StoredText(prefs);
      !IsBlank(stored) && c.bytes.fromBase64(stored).Some? && |c.bytes.fromBase64(stored).value| >= 4
      && ToInt32(c.bytes.fromBase64(stored).value) < 0 ==>
        LoadOutcome(c, stored) == Err(Undecodable(NegativeLength)) && AfterLoad(c, before, prefs) == DefaultSettings()
    ensures var stored := StoredText(prefs);
      !IsBlank(stored) && c.bytes.fromBase64(stored).Some? && |c.bytes.fromBase64(stored).value| >= 4
      && ToInt32(c.bytes.fromBase64(stored).value) >= 0 && c.bytes.gunzip(c.bytes.fromBase64(stored).value[4..]).None? ==>
        LoadOutcome(c, stored) == Err(Undecodable(CorruptStream)) && AfterLoad(c, before, prefs) == DefaultSettings()
    ensures var stored := StoredText(prefs);
      FullText(c, stored).Ok? && Table(FullText(c, stored).value).Ok?
      && MainTag in Table(FullText(c, stored).value).value
      && c.fromJson(Table(FullText(c, stored).value).value[MainTag]).None? ==>
        LoadOutcome(c, stored) == Err(BadJson) && AfterLoad(c, before, prefs) == DefaultSettings()
  {
  }

  /** Two sections with one tag make Load fail, whatever their payloads. */
  lemma DuplicateTagGivesDefaults(c: Codec, prefs: map<string, string>, i: nat, j: nat)
    requires FullText(c, StoredText(prefs)).Ok?
    requires var full := FullText(c, StoredText(prefs)).value;
      i < j < |Matches(full, 0)| && Matches(full, 0)[i].tag == Matches(full, 0)[j].tag
    ensures LoadOutcome(c, StoredText(prefs)).Err?
    ensures Current(c, None, prefs) == DefaultSettings()
  {
    var full := FullText(c, StoredText(prefs)).value;
    DuplicateTagFails(Matches(full, 0), i, j);
  }
}
