# HierarchyPlus, modelled in Dafny

HierarchyPlus is a Unity editor extension. It decorates every row of the
Hierarchy window. Each row gets:

- the three "misc" colour overrides;
- alternating row shading and tree guide lines;
- a strip of icons on the right, one for the GameObject and one per
  component. Clicking an icon toggles that object on or off, and dragging
  across icons toggles each one at most once per gesture;
- a layer label and a tag label.

Its settings persist as one compressed text entry in the editor
preferences. Saving can be paused by scopes and is flushed when the
outermost scope exits. A small `RegexComparison` type turns a plain text
comparison into a regular expression and back. `ColoredScope` saves and
restores the three global GUI colour slots.

The project models those four pieces as Dafny code:

| file | module | models |
|---|---|---|
| `wrappers.dfy` | `Wrappers` | `Option` and `Result` |
| `engine.dfy` | `Engine` | the Unity values used: colours, rects, events, and the `Gui` object holding the global colour slots, the hot control and the current event |
| `colored_scope.dfy` | `ColoredScopes` | `ColoredScope`: the flag enumeration, the three constructors, `MemorizeColor`, `SetColors`, `Dispose` |
| `regex_comparison.dfy` | `RegexComparisons` | `RegexComparison`: the kind setter, `GetFinalPattern`, `ExitRegexComparison`, both `IsMatch`, `IsValidRegex` |
| `settings_format.dfy` | `SettingsFormat` | the `TAG[payload]` plus three U+200B section text and its reading by the section pattern; the tag table `Load` builds; the 4-byte length framing around the compressor |
| `settings_data.dfy` | `SettingsData` | the saved fields and their defaults, `Get*Enabled`, what `Load` makes of the stored entry |
| `saved_settings.dfy` | `SavedSettings` | the static store with its pause and pending-save flags and `Data`, `Load`, `Save`, `Clear`, `SavePaused`; the saved-value setters; `SavePauseScope` and `SaveOnChange` |
| `scene.dfy` | `Scene` | transforms, components and GameObjects, with `IsComponentToggleable`, `IsComponentEnabled` and `SetComponentEnabled` |
| `row_rules.dfy` | `RowRules` | the rules each row follows: the guideline walk, the row band, icon slots, the component filter, `UseRectEnd`, label slices, the per-frame counters |
| `drag_toggle.dfy` | `DragToggle` | the drag-toggle gesture as a state machine over visits |
| `hierarchy.dfy` | `Hierarchy` | the static state of `HierarchyPlus` as one object: `OnHierarchyItemGUI` and the methods it calls, the icon lookup and cache, the drag toggle, the colour scopes of the row |

## How the source is modelled

The source works by changing static state in place, and the model keeps
that form. `HierarchyPlus`, the settings store and `ColoredScope` are
classes. Their methods state the new state through pure functions:

- `Step` for the drag toggle;
- `LookupIcon` for `GetIcon`;
- `SlotFor` and `Candidates` for the icon strip;
- `LabelLayout` for the labels;
- `RowSlots` for the colour scopes;
- `SaveStep`, `SetPausedStep`, `AfterSave` and `Current` for the settings.

Lemmas about those functions state what the source promises.

Other modelling choices:

- **Drawing.** It becomes an append-only log of `Drawing` records. The
  store's preference writes, load warnings and callbacks become a log of
  `Notice` records.
- **Host functions.** JSON, UTF-8, GZip, Base64 and the regex engine are
  parameters. Where a property needs it, they are assumed to be inverse
  pairs.
- **The section pattern.** `(\w+)\[(.*?)\]` followed by three U+200B is
  modelled exactly, as a left-to-right scan with lazy matching.
- **Regex.Escape.** It is modelled on the characters .NET escapes.
- **Numbers.** Coordinates and widths are integers. The float `%` in the
  row band test takes the sign of the dividend, and is written out as
  `TruncatedRemainder`.

The row callback receives the row's GameObject (or null) and the measured
width of its name. In the source these come from `InstanceIDToObject` and
`CalcSize`.

The component filter follows the code. Inside the switch, `isFirstComponent`
is already false when the hidden-type test runs. So the hidden-type names also
filter out the first real component (Transform), not only later ones.

The pattern round trip needs two extra conditions, which the lemmas state:

- **`PatternRoundTrip`** applies to literals with no .NET metacharacters.
- **`ExitInvertsFinalPattern`** also applies to literals with
  metacharacters. It gives back the escaped literal. A literal ending in `$`
  is covered only under `EndsWith` and `EqualsTo`, whose own end anchor
  follows the escaped `\$`.

Under `Contains` and `StartsWith` a literal that ends in `$` does not come
back whole, as `TrailingDollarMisread` proves. `ExitRegexComparison` reads
the `$` of the escaped trailing `\$` as an end anchor and cuts it off. So a
`Contains` literal returns as `EndsWith` and a `StartsWith` literal as
`EqualsTo`, each ending in a backslash.

Some lemmas are steps of these proofs and have no row of their own:
`FinalPatternParts` splits the final pattern into anchor, flag part,
escaped literal and anchor. `ExitOfKnownShape`, `MisreadCore`,
`StripDollarEnd` and `FlagRemovedFrom` state the exit on plain strings.
`EscapedDollarTail`, `EscapedNoOpenQuestion`, `InitNoCaseFlag` and
`TrailingDollarPieces` give the facts about the escaped literal they need.
`Hierarchy.AppendAssoc` is associativity of sequence concatenation, used in
the loop invariant of `DrawComponentIcons`.

## Model

| member | source | states |
|---|---|---|
| Engine.Event.Use | Editor/HierarchyPlus.cs:726-731 | a used event has type Used and keeps its button and mouse position |
| ColoredScopes.AllIsUnionOfFlags | Editor/GUI/ColoredScope.cs:8-14 | All is exactly Bg, Fg and General together, and has each of the three flags |
| ColoredScopes.RestoreUndoesPaint | Editor/GUI/ColoredScope.cs:28-40 | restoring the memorized slots right after painting gives back the slots found, for every flag set and colour |
| ColoredScopes.NestedScopesRestore | Editor/GUI/ColoredScope.cs:20-73 | any number of scopes, active or inactive, disposed in reverse order of construction leave all three slots as they were before the first |
| ColoredScopes.ColoredScope.MemorizeColor | Editor/GUI/ColoredScope.cs:20-26 | the memorized colours are the three global slots (background, content, general) and the scope is marked as changed |
| ColoredScopes.ColoredScope.SetColors | Editor/GUI/ColoredScope.cs:28-40 | memorizes all three slots, then overwrites exactly the slots whose flag is set with the colour; the other slots, the hot control and the event are unchanged |
| ColoredScopes.ColoredScope.Always | Editor/GUI/ColoredScope.cs:42-46 | the (type, color) constructor always paints the flagged slots and memorizes the slots it found |
| ColoredScopes.ColoredScope.IfActive | Editor/GUI/ColoredScope.cs:48-53 | the (type, isActive, color) constructor paints only when active; an inactive scope leaves every slot alone and is marked unchanged |
| ColoredScopes.ColoredScope.Choose | Editor/GUI/ColoredScope.cs:55-59 | the (type, isActive, active, inactive) constructor always paints, using `active` when isActive and `inactive` otherwise |
| ColoredScopes.ColoredScope.Dispose | Editor/GUI/ColoredScope.cs:61-73 | a scope that painted puts exactly its flagged slots back to the memorized colours and leaves the others; one that never painted changes nothing |
| ColoredScopes.TwoNestedScopes | Editor/GUI/ColoredScope.cs:42-73 | two Always scopes of any flag sets, disposed innermost first, leave the global slots as they were |
| RegexComparisons.FinalPattern | Editor/RegexComparison.cs:54-64 | for the Regex kind the final pattern is the stored pattern unchanged |
| RegexComparisons.FinalPatternAnchors | Editor/RegexComparison.cs:58-63 | for a plain kind, and a literal not ending in `$` unless bit 1 is set, the pattern starts with `^` exactly when bit 0 is set and ends with `$` exactly when bit 1 is set; the part between is the case flag and the escaped literal |
| RegexComparisons.KindFromAnchors | Editor/RegexComparison.cs:86-91 | the kind chosen from a leading `^` and a trailing `$` is never Regex and has bit 0 exactly when the pattern starts with `^` and bit 1 exactly when it ends with `$` |
| RegexComparisons.StripAnchors | Editor/RegexComparison.cs:92-93 | cutting the anchors never lengthens the pattern |
| RegexComparisons.RemoveAll | Editor/RegexComparison.cs:96 | removing every `(?i)` never lengthens the pattern |
| RegexComparisons.RemoveAllDropsOnly | Editor/RegexComparison.cs:96 | the removal only drops characters: every character left occurs in the input at least as often |
| RegexComparisons.RemoveAllUnchanged | Editor/RegexComparison.cs:95-98 | the removal leaves the string unchanged exactly when the flag does not occur in it, which is the test that sets the case flag |
| RegexComparisons.RemoveAllAbsent | Editor/RegexComparison.cs:96 | a string without the flag is left as it is |
| RegexComparisons.ExitPattern | Editor/RegexComparison.cs:82-99 | leaving regex mode: the kind comes from the anchors, the anchors and every `(?i)` are removed, and the case flag becomes true only when no `(?i)` was found and is never made false |
| RegexComparisons.EscapeLength | Editor/RegexComparison.cs:61 | escaping never shortens a string, and keeps its length exactly when it has no metacharacter |
| RegexComparisons.EscapeIdentityIff | Editor/RegexComparison.cs:61 | escaping is the identity exactly on strings without metacharacters |
| RegexComparisons.EscapedMetaPreceded | Editor/RegexComparison.cs:61 | in an escaped string every metacharacter other than the backslash is preceded by a backslash |
| RegexComparisons.EscapedHasNoCaseFlag | Editor/RegexComparison.cs:60-61 | an escaped string never contains `(?i)`, so the only flag in a final pattern is the one GetFinalPattern puts there |
| RegexComparisons.EscapeEndsWithDollar | Editor/RegexComparison.cs:61-62 | an escaped string ends with `$` exactly when the literal does |
| RegexComparisons.MiddleShape | Editor/RegexComparison.cs:59-62 | the case flag followed by the escaped literal never starts with `^`, and does not end with `$` unless the literal does |
| RegexComparisons.StripKnownAnchors | Editor/RegexComparison.cs:84-93 | with optional anchors around a middle that does not start with `^`, and ends with `$` only when the end anchor follows it, the anchor tests see exactly the added anchors and stripping gives back the middle |
| RegexComparisons.FlagRemoved | Editor/RegexComparison.cs:60-98 | removing the flag from the flag part and the escaped literal leaves the escaped literal, and a flag is found exactly when the comparison was case-insensitive |
| RegexComparisons.ExitInvertsFinalPattern | Editor/RegexComparison.cs:54-99 | for a plain kind, and a literal not ending in `$` unless the kind anchors the end (EndsWith, EqualsTo), leaving regex mode after GetFinalPattern recovers the kind, the case flag and the escaped literal |
| RegexComparisons.TrailingDollarMisread | Editor/RegexComparison.cs:54-99 | under Contains or StartsWith a literal ending in `$` returns as EndsWith or EqualsTo, with the case flag kept and the escaped literal short of its final `$`, so ending in a backslash |
| RegexComparisons.PatternRoundTrip | Editor/RegexComparison.cs:54-99 | for a plain kind and a literal without metacharacters, GetFinalPattern followed by ExitRegexComparison recovers the literal, the kind and the case flag |
| RegexComparisons.RegexComparison.constructor | Editor/RegexComparison.cs:13-15 | a new comparison is a case-insensitive Contains with an empty pattern |
| RegexComparisons.RegexComparison.SetComparisonType | Editor/RegexComparison.cs:17-28 | setting the same kind changes nothing; switching to Regex first replaces the pattern by the final pattern; switching between plain kinds keeps the pattern; the case flag is kept |
| RegexComparisons.RegexComparison.ExitRegexComparison | Editor/RegexComparison.cs:82-99 | the new kind, pattern and case flag are ExitPattern of the old pattern and case flag |
| RegexComparisons.RegexComparison.IsMatch | Editor/RegexComparison.cs:39 | the input matches exactly when the pattern is not empty and the engine matches the input against the final pattern |
| RegexComparisons.RegexComparison.IsMatchAll | Editor/RegexComparison.cs:41-52 | one answer per input, each equal to the single-input IsMatch, so all false for an empty pattern |
| RegexComparisons.IsValidRegex | Editor/RegexComparison.cs:66-80 | an empty pattern is never valid; a non-empty pattern the engine accepts is |
| RegexComparisons.EnterAndExitRegexMode | Editor/RegexComparison.cs:17-99 | switching a plain comparison with a metacharacter-free pattern to Regex and exiting again restores its kind, pattern and case flag |
| SettingsFormat.SectionText | Editor/SavedSettings.cs:61 | a section is its tag, the brackets, the payload and the three-character terminator |
| SettingsFormat.WordRunEnd | Editor/SavedSettings.cs:81 | the tag group `\w+` extends over word characters exactly up to the first non-word character or the end |
| SettingsFormat.FindClose | Editor/SavedSettings.cs:81 | the lazy payload group ends at the first `]` followed by the terminator, never crossing a newline |
| SettingsFormat.MatchAt | Editor/SavedSettings.cs:81 | a section match found at a position ends beyond it, within the text |
| SettingsFormat.FindCloseOfSection | Editor/SavedSettings.cs:61-81 | in a written section with a safe payload the payload group closes exactly at the written `]` |
| SettingsFormat.WordRunOfTag | Editor/SavedSettings.cs:61-81 | the tag group of a written section is exactly the written tag |
| SettingsFormat.SectionRoundTrip | Editor/SavedSettings.cs:61-81 | reading a written section with a safe payload gives back exactly that one section, with its tag and payload |
| SettingsFormat.SectionTable | Editor/SavedSettings.cs:77-87 | a table that is built holds every section's tag |
| SettingsFormat.DuplicateTagFails | Editor/SavedSettings.cs:85 | two sections with the same tag make Dictionary.Add throw, so building the table fails |
| SettingsFormat.DistinctTagsTable | Editor/SavedSettings.cs:77-87 | sections with distinct tags always build a table, mapping each tag to its payload |
| SettingsFormat.SectionTableKeys | Editor/SavedSettings.cs:77-87 | every key of the table is the tag of some section |
| SettingsFormat.LittleEndian32 | Editor/SavedSettings.cs:131 | the length prefix has four bytes |
| SettingsFormat.ToInt32 | Editor/SavedSettings.cs:139 | the length read back fits a signed 32-bit integer |
| SettingsFormat.Int32RoundTrip | Editor/SavedSettings.cs:131-139 | reading back the four bytes written gives back every signed 32-bit length |
| SettingsFormat.Frame | Editor/SavedSettings.cs:129-131 | the buffer is four bytes of length followed by the compressed bytes unchanged |
| SettingsFormat.CompressString | Editor/SavedSettings.cs:115-133 | the byte-copying code produces the Base64 text of the length-prefixed compressor output |
| SettingsFormat.Fill | Editor/SavedSettings.cs:142-147 | the output buffer has the announced length, holds the decompressed bytes it has room for and zeros after them |
| SettingsFormat.DecompressString | Editor/SavedSettings.cs:135-151 | the byte-copying code decodes Base64, rejects a short or negative-length buffer, and decompresses the rest into a buffer of the announced length |
| SettingsFormat.CompressionRoundTrip | Editor/SavedSettings.cs:115-151 | with inverse codecs, decompressing what CompressString produced gives the text back, and the stored text is never blank |
| SettingsData.Settings.WithBool | Editor/SavedSettings.cs:211-221 | assigning a saved bool changes exactly that field |
| SettingsData.Settings.WithColor | Editor/SavedSettings.cs:347-358 | assigning a saved colour changes exactly that field |
| SettingsData.Settings.WithNumber | Editor/SavedSettings.cs:273-283 | assigning a saved float changes exactly that field |
| SettingsData.Settings.WithHiddenType | Editor/SavedSettings.cs:304-314 | assigning one hidden type name changes exactly that entry, keeping the list length |
| SettingsData.DefaultValues | Editor/SavedSettings.cs:416-461 | the defaults are the field initialisers: the bools that start off, the row and icon colours, widths 75 and offset 0, and MeshFilter hidden |
| SettingsData.MasterSwitch | Editor/SavedSettings.cs:465-468 | turning the master switch off turns colours, icons and labels off whatever their own switches say, and leaves row colouring alone; turning it on lets each follow its own switch |
| SettingsData.MainTagIsWord | Editor/SavedSettings.cs:61-81 | the MAIN tag is a non-empty run of word characters, so the section pattern can match it |
| SettingsData.PersistRoundTrip | Editor/SavedSettings.cs:55-101 | when the byte codecs invert each other and JsonUtility reads back this instance from its safe JSON text, loading the entry Save writes gives back the same settings |
| SettingsData.SaveThenLoad | Editor/SavedSettings.cs:43-101 | under the same condition on this instance, once that entry is written, the Data property of a fresh session returns the saved settings |
| SettingsData.BlankHasNoSections | Editor/SavedSettings.cs:79-81 | blank text has no sections |
| SettingsData.BlankEntryGivesDefaults | Editor/SavedSettings.cs:73-94 | a missing or blank preferences entry has no MAIN section and gives the defaults |
| SettingsData.FailedLoadGivesDefaults | Editor/SavedSettings.cs:69-100 | each failure Load catches (an entry that is not Base64, a buffer shorter than the prefix, a negative length, a corrupt stream, a MAIN payload JsonUtility rejects) is reported as that error and leaves the defaults, whatever instance there was |
| SettingsData.DuplicateTagGivesDefaults | Editor/SavedSettings.cs:85-100 | a stored text with a repeated tag fails to load and yields the defaults |
| SavedSettings.WritesAppend | Editor/SavedSettings.cs:65 | preference writes add up over a log |
| SavedSettings.LoadNoticesWriteNothing | Editor/SavedSettings.cs:43-50 | loading never writes the preferences |
| SavedSettings.SaveStep | Editor/SavedSettings.cs:55-67 | paused, Save only marks the save pending and writes nothing; otherwise it clears the pending flag and writes exactly once unless saving is disabled |
| SavedSettings.SetPausedStep | Editor/SavedSettings.cs:29-39 | the pause flag takes the value; only a true-to-false change with a save pending saves, and any other assignment writes nothing |
| SavedSettings.PausedRunDefers | Editor/SavedSettings.cs:29-67 | any sequence of saves, setter calls and nested scopes inside a pause writes nothing, stays paused, and leaves a save pending exactly when something asked for one |
| SavedSettings.PausedBlockDefers | Editor/SavedSettings.cs:29-67 | the same for one block |
| SavedSettings.RunKeepsConsistent | Editor/SavedSettings.cs:29-67 | the flags keep the invariant that a save is pending only while paused |
| SavedSettings.BlockKeepsConsistent | Editor/SavedSettings.cs:29-67 | the same invariant, for one block |
| SavedSettings.OutermostPauseScopeFlushesOnce | Editor/SavedSettings.cs:185-199 | an outermost SavePauseScope writes exactly once at its exit when its body asked for a save and saving is enabled, and leaves the flags clear |
| SavedSettings.OutermostChangeScopeFlushesOnce | Editor/SavedSettings.cs:155-183 | an outermost SaveOnChange writes exactly once at its exit when there was a change or its body asked for a save, and leaves the flags clear |
| SavedSettings.SettingsStore.constructor | Editor/SavedSettings.cs:24-27 | a new store is unpaused, has nothing pending and no instance |
| SavedSettings.SettingsStore.Data | Editor/SavedSettings.cs:43-50 | loads only when there is no instance, and returns the same instance from then on |
| SavedSettings.SettingsStore.Load | Editor/SavedSettings.cs:69-101 | the instance becomes what the stored entry holds, the previous or a new default one when there is no MAIN section, or the defaults with a warning on any failure |
| SavedSettings.SettingsStore.Save | Editor/SavedSettings.cs:55-67 | paused, only marks the save pending; otherwise writes the compressed MAIN section of the current instance under the preferences key, unless saving is disabled, and clears the pending flag |
| SavedSettings.SettingsStore.SetSavePaused | Editor/SavedSettings.cs:29-39 | takes the value, and saves only on a true-to-false change with a save pending |
| SavedSettings.SettingsStore.Clear | Editor/SavedSettings.cs:108-113 | replaces the instance by the defaults, reports the clear, then saves |
| SavedSettings.SettingsStore.SetBool | Editor/SavedSettings.cs:211-221 | an equal value changes nothing; a different one is stored, then saved |
| SavedSettings.SettingsStore.Toggle | Editor/SavedSettings.cs:230 | negates the value, which is always a change, so always saves |
| SavedSettings.SettingsStore.SetNumber | Editor/SavedSettings.cs:273-283 | an equal value changes nothing; a different one is stored, then saved |
| SavedSettings.SettingsStore.SetHiddenType | Editor/SavedSettings.cs:304-314 | an equal name changes nothing; a different one is stored, then saved |
| SavedSettings.SettingsStore.SetColor | Editor/SavedSettings.cs:347-358 | the colour is stored and saved even when it is unchanged |
| SavedSettings.BuildTable | Editor/SavedSettings.cs:77-87 | the Dictionary.Add loop builds the tag table of the sections, or fails on the first repeated tag |
| SavedSettings.TableFailureStays | Editor/SavedSettings.cs:82-86 | once a repeated tag is met, further sections do not change the failure |
| SavedSettings.SavePauseScope.constructor | Editor/SavedSettings.cs:189-193 | remembers the pause flag and pauses saving |
| SavedSettings.SavePauseScope.Dispose | Editor/SavedSettings.cs:195-198 | puts the remembered pause flag back, flushing a pending save only if that unpauses |
| SavedSettings.SaveOnChange.constructor | Editor/SavedSettings.cs:161-167 | remembers the pause flag and pauses saving |
| SavedSettings.SaveOnChange.Dispose | Editor/SavedSettings.cs:169-180 | with a change, calls back and saves once, then puts the pause flag back; without one, only puts the pause flag back |
| SavedSettings.SavedEntryReloads | Editor/SavedSettings.cs:55-101 | a store that wrote settings hands exactly those settings to the next session, when its JSON codec reads this instance back |
| Scene.Transform.Root | Editor/HierarchyPlus.cs:314-316 | a root transform has no parent and depth 0 |
| Scene.Transform.Child | Editor/HierarchyPlus.cs:314-317 | a child transform keeps its parent, sibling index and child count, one level deeper |
| Scene.Ancestors | Editor/HierarchyPlus.cs:325-339 | a transform has as many ancestors as its depth |
| Scene.PathNode | Editor/HierarchyPlus.cs:325-331 | the path node at a level has that depth |
| Scene.PathNotLastMeaning | Editor/HierarchyPlus.cs:325-331 | the not-last-child list has one entry per level, and entry k-1 says whether the path node k levels below the root is not its parent's last child |
| Scene.SetComponentEnabled | Editor/HierarchyPlus.cs:712-724 | a toggleable component takes the flag and IsComponentEnabled then reports it; any other component keeps its flag and still reads as enabled |
| RowRules.GuideLines | Editor/HierarchyPlus.cs:314-339 | the walk up the parent chain counts as many levels as the row has ancestors; isLastChild holds exactly when there is a parent and the sibling index is the last; with guidelines on, the middle lines are the not-last-child list from the root down, otherwise empty |
| RowRules.GuideLinesShape | Editor/HierarchyPlus.cs:320-339 | with guidelines on, there is one middle line per level, and the last one is the row's own item |
| RowRules.LineRect | Editor/HierarchyPlus.cs:341-343 | the guideline rect starts 14 per level plus 34 left of the row and stops the margin short of it |
| RowRules.BackgroundRect | Editor/HierarchyPlus.cs:347-349 | the shading rect starts 5 right of the guideline rect and reaches 17 past the row's right edge |
| RowRules.TruncatedRemainder | Editor/HierarchyPlus.cs:354 | the float remainder takes the sign of the dividend |
| RowRules.RowBand | Editor/HierarchyPlus.cs:345-360 | on a repaint, a row is shaded odd exactly when `y % 32 > 15` and odd shading is on, and even exactly when it is not and even shading is on; never otherwise |
| RowRules.BandPeriodic | Editor/HierarchyPlus.cs:354 | the band repeats every 32 units |
| RowRules.SixteenUnitRowsAlternate | Editor/HierarchyPlus.cs:354 | rows 16 units high alternate between the bands |
| RowRules.NegativeRowsEven | Editor/HierarchyPlus.cs:354 | rows above the origin are always in the even band |
| RowRules.SlotFor | Editor/HierarchyPlus.cs:409-427 | an icon is drawn exactly when icons are always shown or at least 36 units are left; the ellipsis exactly when it is not; the swatch exactly when the icon is drawn, colours and the swatch are on, and the icon overlaps or overlap-only is off |
| RowRules.BackgroundOnlyWhenOverlapping | Editor/HierarchyPlus.cs:415 | with overlap-only on, a swatch means less than 18 units were left, which needs icons always shown |
| RowRules.Candidates | Editor/HierarchyPlus.cs:432-454 | the components that get a slot, as increasing indices into the component list |
| RowRules.CandidatesMeaning | Editor/HierarchyPlus.cs:432-454 | an index gets a slot exactly when its component passes the filter for its position: first real component or later |
| RowRules.FilterRules | Editor/HierarchyPlus.cs:432-452 | missing components always get a slot; the first real one only with the transform icon on; later ones of another kind are skipped when non-behaviour icons are off; hidden type names are skipped |
| RowRules.UseRectEnd | Editor/HierarchyPlus.cs:557-564 | the rest keeps x and loses `width` of its width; the slice has that width, starts at the rest's right edge and ends at the original right edge |
| RowRules.Clamp | Editor/HierarchyPlus.cs:479 | the clamp lies in the range and keeps a value already in it |
| RowRules.LabelSlot | Editor/HierarchyPlus.cs:476-480 | a label slot is the end slice clamped to the room there was, and right-aligned at the area's right edge |
| RowRules.LabelLayout | Editor/HierarchyPlus.cs:468-544 | the layer label shows when enabled and wider than 10 units; the tag label likewise, 18 units left of the layer slot, which is taken whether or not the layer label shows |
| RowRules.LabelsPlacement | Editor/HierarchyPlus.cs:474-521 | both labels are right-aligned, never wider than their setting nor the room left, and the tag ends 18 units before the layer slot |
| RowRules.RowStartStep | Editor/HierarchyPlus.cs:288-293 | the first row of a frame moves the maximum to the last maximum and restarts it at 0; later rows change nothing |
| RowRules.RowEndStep | Editor/HierarchyPlus.cs:465 | a row raises the maximum to its icon count |
| RowRules.RowsWithinFrame | Editor/HierarchyPlus.cs:288-465 | within a frame, the maximum becomes the largest icon count of its rows |
| RowRules.FrameCarriesMaximum | Editor/HierarchyPlus.cs:288-472 | every row of the next frame sees the largest icon count of the previous frame as the last maximum |
| DragToggle.Step | Editor/HierarchyPlus.cs:617-659 | only toggleable objects change; a click sets the object to its negation and starts a gesture visiting just it with that target, taking the hot control when drag toggling is on; otherwise an object is set to the target exactly when the hot control is held, the pointer is over it and it was not yet visited, and is then marked visited |
| DragToggle.GestureEndVisited | Editor/HierarchyPlus.cs:741-753 | within a gesture the target and the hot control stay, and the visited set grows by exactly the toggled objects |
| DragToggle.GestureTogglesToTarget | Editor/HierarchyPlus.cs:617-659 | every object toggled during a gesture is set to the target and was not visited before |
| DragToggle.AtMostOncePerGesture | Editor/HierarchyPlus.cs:741-745 | within a gesture no object is toggled twice |
| DragToggle.NoHotControlNoDrag | Editor/HierarchyPlus.cs:744 | without the hot control, the pointer passing over objects toggles none |
| DragToggle.ClickWithoutDragToggle | Editor/HierarchyPlus.cs:747-753 | with drag toggling off, a click toggles the clicked object only |
| DragToggle.ClickStartsGesture | Editor/HierarchyPlus.cs:747-753 | with drag toggling on, a click takes the hot control, visits only the clicked object, and every later toggle sets the clicked object's new state |
| Hierarchy.AfterClick | Editor/HierarchyPlus.cs:726-739 | a click on the rect with the button is consumed; any other event is left as it is |
| Hierarchy.IconsBase | Editor/HierarchyPlus.cs:397-399 | the icon and label area starts 18 units past the end of the name and ends 32 units short of the row, moved by the x offset setting |
| Hierarchy.RowColorsDrawings | Editor/HierarchyPlus.cs:312-395 | a row draws one band fill exactly when RowBand picks a band, then one guide-line record exactly when the object has a parent and guide lines are on, drawn in the guideLinesColor setting |
| Hierarchy.LookupIcon | Editor/HierarchyPlus.cs:685-703 | a missing script gives the missing content; a custom icon for the type name wins over the cache; a cached type gets its cached content back with nothing changed; a missing or default-texture thumbnail gives the shared default, with its tooltip set to the type name and nothing cached; otherwise one entry is added for exactly that type; earlier entries never change |
| Hierarchy.LookupIconIdempotent | Editor/HierarchyPlus.cs:685-703 | a second lookup right after the first returns the same content and changes nothing |
| Hierarchy.LabelsEvent | Editor/HierarchyPlus.cs:489-527 | with label context clicks on, a right click on a shown label is consumed; nothing else changes the event |
| Hierarchy.UndoEnter | Editor/HierarchyPlus.cs:547-552 | disposing a scope right after opening it gives back the slots it found |
| Hierarchy.IconArea.constructor | Editor/HierarchyPlus.cs:403-407 | icons start in the rightmost 18 units of the row, with no slot counted |
| Hierarchy.HierarchyPlus.constructor | Editor/HierarchyPlus.cs:26-41 | an empty type cache, no objects visited, the counters cleared and no colour scopes |
| Hierarchy.HierarchyPlus.ToggleStep | Editor/HierarchyPlus.cs:617-753 | an icon toggle is one Step of the gesture: its drag state and the state it sets are Step's; the left click is consumed; the hot control is taken only on a click with drag toggling on; the icon caches are untouched |
| Hierarchy.HierarchyPlus.GameObjectSlot | Editor/HierarchyPlus.cs:429-430 | with the GameObject icon off the slot does nothing; otherwise it claims one slot and 18 units and draws one thing, the ellipsis exactly when SlotFor says the icon does not fit, else the GameObject icon faded by the prior state; the rect moves 18 left only after an icon; a slot that sets nothing leaves the gesture alone |
| Hierarchy.HierarchyPlus.ComponentSlotMeaning | Editor/HierarchyPlus.cs:433-462 | a component the filter skips changes nothing; otherwise it claims one slot and 18 units and draws one thing, the ellipsis exactly when the icon does not fit (and then sets nothing), else the looked-up icon faded by its state, after which the cache is the lookup's and the rect moves 18 left; only toggleable components are set |
| Hierarchy.HierarchyPlus.RunCoversCandidates | Editor/HierarchyPlus.cs:432-463 | the component loop claims exactly one slot per component the filter lets through, draws one icon or ellipsis per slot, takes 18 units per slot, and sets only toggleable components |
| Hierarchy.HierarchyPlus.RowIconsCount | Editor/HierarchyPlus.cs:401-465 | a row counts one slot for the GameObject when its icon is shown plus one per filtered component, and draws exactly one icon or ellipsis per slot |
| Hierarchy.HierarchyPlus.OnCustomUpdate | Editor/HierarchyPlus.cs:769 | a new frame clears only the ran-once flag |
| Hierarchy.HierarchyPlus.StartRow | Editor/HierarchyPlus.cs:288-293 | the counters take their first-row-of-frame step |
| Hierarchy.HierarchyPlus.DisposeOfColorScopes | Editor/HierarchyPlus.cs:547-552 | disposing the three scopes, last first, gives back the slots found before they were opened |
| Hierarchy.HierarchyPlus.OpenColorScopes | Editor/HierarchyPlus.cs:295-301 | with colours on, three new scopes apply the misc colours whose switches are on, and their disposal gives back the slots found; with colours off, the slots and scopes stay |
| Hierarchy.HierarchyPlus.RefreshColorScopes | Editor/HierarchyPlus.cs:295-301 | each row starts from the slots the previous row's scopes give back, with this row's misc colours applied |
| Hierarchy.HierarchyPlus.TwoRowsOfColors | Editor/HierarchyPlus.cs:295-301 | consecutive rows start from the same slots, so the misc colours never pile up |
| Hierarchy.HierarchyPlus.LeftClicked | Editor/HierarchyPlus.cs:726-731 | true exactly for a left mouse-down inside the rect, which is then consumed |
| Hierarchy.HierarchyPlus.RightClicked | Editor/HierarchyPlus.cs:733-739 | true exactly for a right mouse-down inside the rect, which is then consumed |
| Hierarchy.HierarchyPlus.StartDragToggling | Editor/HierarchyPlus.cs:747-753 | the visited set empties, the target becomes the given state, and the hot control is taken only with drag toggling on |
| Hierarchy.HierarchyPlus.DrawIcon | Editor/HierarchyPlus.cs:672-683 | records the icon with the faded or normal tint and the swatch when asked, restores the colour slots, and returns the rect shifted 18 units left |
| Hierarchy.HierarchyPlus.GameObjectIcon | Editor/HierarchyPlus.cs:662-670 | the GameObject icon keeps its tooltip, and its image is replaced only by the object's own custom icon when that is wanted and available |
| Hierarchy.HierarchyPlus.DrawGameObjectIcon | Editor/HierarchyPlus.cs:662-670 | records the GameObject icon and shifts the rect 18 units left |
| Hierarchy.HierarchyPlus.GetIcon | Editor/HierarchyPlus.cs:685-703 | the content returned and the new cache and default content are LookupIcon of the old ones |
| Hierarchy.HierarchyPlus.DrawComponentIcon | Editor/HierarchyPlus.cs:660 | records the looked-up component icon and shifts the rect 18 units left |
| Hierarchy.HierarchyPlus.DrawGameObjectToggle | Editor/HierarchyPlus.cs:617-636 | the gesture state and the object's active flag follow one Step of the drag toggle; a left click is consumed and takes the hot control when drag toggling is on; the icon is faded by the state before the click |
| Hierarchy.HierarchyPlus.DrawComponentToggle | Editor/HierarchyPlus.cs:638-659 | the same for a component; a component that cannot be toggled is only drawn, and neither it, the event nor the gesture changes |
| Hierarchy.HierarchyPlus.CanDrawIcon | Editor/HierarchyPlus.cs:409-427 | each call counts one slot and takes 18 units of room; it answers as SlotFor the room before it, and records an ellipsis exactly when it returns false |
| Hierarchy.HierarchyPlus.ComponentPasses | Editor/HierarchyPlus.cs:435-452 | the filter decides as Passes, and the first-component flag stays only across missing components |
| Hierarchy.HierarchyPlus.ContextClick | Editor/HierarchyPlus.cs:457-462 | with context clicks on, a right mouse-down on the icon is consumed; otherwise the event is left alone |
| Hierarchy.HierarchyPlus.DrawComponentSlot | Editor/HierarchyPlus.cs:433-462 | the new gesture state, hot control, event, icon cache, slot count, room and icon rect are those of ComponentSlot for the component's state before the slot; what it draws is appended; the component's flag is what the slot set, else unchanged; the colour slots are as before |
| Hierarchy.HierarchyPlus.DrawIconSlot | Editor/HierarchyPlus.cs:455-462 | a claimed slot whose icon fits does what IconSlot says: the toggle, the looked-up icon, the 18-unit move and the context-click test |
| Hierarchy.HierarchyPlus.DrawComponentIcons | Editor/HierarchyPlus.cs:432-463 | the loop ends in the state ComponentRun gives from the components' states before it, appends its drawings, and every component's flag is the last state a slot set it to, else its old flag; the frame counters and colour scopes are untouched |
| Hierarchy.HierarchyPlus.DrawGameObjectSlot | Editor/HierarchyPlus.cs:429-430 | the new gesture state, event, slot count, room and icon rect are those of GameObjectSlot; its drawing is appended and the object's active flag is what the slot set, else unchanged |
| Hierarchy.HierarchyPlus.DrawRowIcons | Editor/HierarchyPlus.cs:401-466 | the row's icons end in the state RowIcons gives: the slot count, the gesture, event and caches, the drawings appended, the GameObject's and components' new flags; the frame maximum rises to the count |
| Hierarchy.HierarchyPlus.DrawRowSlots | Editor/HierarchyPlus.cs:429-463 | the GameObject slot then the component loop, ending as IconsFrom says |
| Hierarchy.HierarchyPlus.RecordIconCount | Editor/HierarchyPlus.cs:465 | the counters take their row-end step |
| Hierarchy.HierarchyPlus.DrawLabel | Editor/HierarchyPlus.cs:485-487 | records the label and leaves the colour slots as they were |
| Hierarchy.HierarchyPlus.DrawLayerLabel | Editor/HierarchyPlus.cs:474-511 | takes the layer slot from the right end; draws the layer label, with the index when asked, only when shown and wider than 10; its right click is consumed only then |
| Hierarchy.HierarchyPlus.DrawTagLabel | Editor/HierarchyPlus.cs:513-544 | the tag label 18 units further left, drawn only when shown and wider than 10; its right click is consumed only then |
| Hierarchy.HierarchyPlus.DrawLabels | Editor/HierarchyPlus.cs:468-544 | the labels drawn and the event are those of LabelLayout over the row less one slot per icon of the widest row of the previous frame and one more |
| Hierarchy.HierarchyPlus.DrawRowColors | Editor/HierarchyPlus.cs:312-395 | records the band fill of RowBand over the shading rect, then the guide lines of a child object with its geometry, last-child flag, middle lines and the guideLinesColor setting |
| Hierarchy.HierarchyPlus.DrawRow | Editor/HierarchyPlus.cs:312-544 | a GameObject's row appends exactly what RowEffect gives: the band fill and guide lines when colours are drawn, the icons when icons are on, the labels when labels are on placed by the last frame's widest icon strip; the gesture, event, caches and flags end as RowEffect says and the frame maximum rises to the icon count |
| Hierarchy.HierarchyPlus.DrawRowGraphics | Editor/HierarchyPlus.cs:312-466 | the shading, guide lines and icons of a row, as RowGraphics says |
| Hierarchy.HierarchyPlus.DrawRowIconsIfOn | Editor/HierarchyPlus.cs:401-466 | with icons on, the icons as RowIcons says and the maximum raised; with icons off nothing changes |
| Hierarchy.HierarchyPlus.DrawLabelsIfOn | Editor/HierarchyPlus.cs:468-544 | with labels off nothing is drawn and the event is kept; with labels on, the labels and event of LabelLayout |
| Hierarchy.HierarchyPlus.BeginRow | Editor/HierarchyPlus.cs:288-301 | the counters take their first-row step and the colour slots become RowSlots over what the previous row's scopes give back; the gesture and event are untouched |
| Hierarchy.HierarchyPlus.DrawRowIfAny | Editor/HierarchyPlus.cs:303-306 | with neither colours nor icons to draw, nothing is drawn and nothing changes, not even labels; otherwise the row is RowEffect, and with icons on maxIconCount becomes the larger of its old value and the row's icon count, which is the GameObject icon plus the filtered components |
| Hierarchy.HierarchyPlus.OnHierarchyItemGUI | Editor/HierarchyPlus.cs:286-545 | the first row of a frame restarts the counters; the row starts from the slots the previous row's scopes give back, with its misc colours applied; a row that is not a GameObject, or has neither colours nor icons to draw, draws nothing and changes no gesture, event or cache (so no labels either); otherwise it does what RowEffect says; the counters end as RowEndStep of RowStartStep with the row's icon count (the GameObject icon plus the filtered components) when icons are on, and as RowStartStep alone otherwise |

## Left out

- Floats. Widths, positions and `guiXOffset` are integers. `Mathf.Approximately` in the SavedFloat setter is read as equality. Colour components are reals, with no arithmetic on them.
- SavedSettings.SettingsStore.SetNumber: it does not model the approximate comparison of floats, because floats are not modelled.
- The engines behind the storage: JSON, UTF-8, GZip, Base64 and the preferences store are given functions and a map. A single `GZipStream.Read` is assumed to deliver the whole output, up to the buffer length. So a zero length prefix, for which the source reads nothing, and a stream that is corrupt only past the announced length, which the source may not notice, are both reported as a corrupt stream. UTF-16 surrogates are not treated specially.
- SettingsData.PersistRoundTrip, SettingsData.SaveThenLoad, SavedSettings.SavedEntryReloads: they hold only for JSON that contains no newline and no `]` directly followed by the terminator. A payload like that would cut the section short, as the section pattern reads it.
- The .NET regex engine: `IsMatch` and `IsValidRegex` take it as a parameter. `\w` is ASCII letters, digits and `_` rather than every Unicode word character. `StartsWith("^")` and `EndsWith("$")` are ordinal tests, not the culture-sensitive ones, so a leading or trailing ignorable character such as U+00AD is not skipped: for `a$` followed by a soft hyphen the source picks EndsWith and cuts the last character, while the model picks Contains and keeps the pattern. A null `comparisonPattern` is not modelled; the empty string stands for it.
- The `OnChanged` callbacks of saved values. Every saved field in the source is created without one, so the model has none. `OnClear` and the SaveOnChange callback are recorded in the notice log.
- Actual drawing (`GUI.Label`, `EditorGUI.DrawRect`, `Handles.DrawAAPolyLine`, clipping). It is recorded as `Drawing` entries, with the guide lines as one entry holding their geometry.
- Context menus: `DisplayObjectContextMenu` through reflection, and the layer and tag `GenericMenu`s. These are host UI; only the consumed event is modelled.
- `Undo.RecordObject`, `EditorUtility.SetDirty`, `MakeRectLinkCursor` and the release of the hot control by Unity. The end of a drag gesture is up to the host.
- Initialization (`InitializeAll`, the custom icon folder, `GetIconForObject` through reflection). The custom icon table, the default textures and the missing-script content are given. The object's own custom icon is a field of the GameObject. `_defaultContent` is kept as a field of its own, not as the same GUIContent object as the custom table's `Default` entry.
- The `DragToggleHotControlID` string hash. It is a constructor parameter.
- `LayerMask.LayerToName`, `CalcSize` of the name and `InstanceIDToObject`. These become the GameObject's `layerName` field, the `nameWidth` parameter, and a nullable GameObject parameter.
- The settings window, foldouts, `CustomLog` formatting, `AskClear`'s dialog and the `Reset` and `DrawField` members of saved values. These are UI with no logic to model. The styles, content and indent helpers in `Editor/GUI` (StylesContainer.cs, ContentContainer.cs, IndentScope.cs) are not part of this model.
- Static state. The static fields of `HierarchyPlus` and of the settings store each become one object, and the settings are handed to the row methods as a value.
- RowRules.UseRectEnd: its `ref` parameter becomes a returned pair of the remaining rect and the slice.
- Hierarchy.HierarchyPlus.OnHierarchyItemGUI: it states the colour slots the row leaves through RowSlots. It does not state the scopes pending after the row; RefreshColorScopes states those.
- SavedSettings.SettingsStore.SetHiddenType: it requires an index inside the list, as indexing the C# array does.
