/**
 * The settings store: the lazily loaded instance, the pause and pending-save
 * flags, the preferences entry and the scopes that pause saving. The
 * store's static state is one SettingsStore object; the host's
 * EditorPrefs is its `prefs` map and its observable side effects (the
 * load warning, the OnClear and change callbacks, each preferences write)
 * are appended to `log`.
 */
module SavedSettings {
  import opened Wrappers
  import opened Engine
  import opened SettingsFormat
  import opened SettingsData

  datatype Notice = LoadWarning(error: LoadError) | Cleared | ChangeCallback | Written

  /** The notices the Data property adds: a warning when it loads and Load fails. */
  function LoadNotices(c: Codec, data: Option<Settings>, prefs: map<string, string>): seq<Notice> {
    if data.Some? then []
    else match LoadOutcome(c, StoredText(prefs))
      case Err(e) => [LoadWarning(e)]
      case Ok(_) => []
  }

  function Writes(log: seq<Notice>): nat {
    if log == [] then 0 else Writes(log[..|log| - 1]) + (if log[|log| - 1] == Written then 1 else 0)
  }

  lemma {:induction false} WritesAppend(a: seq<Notice>, b: seq<Notice>)
    ensures Writes(a + b) == Writes(a) + Writes(b)
    decreases |b|
  {
    if b == [] {
      assert a + b == a;
    } else {
      var n := |b| - 1;
      assert (a + b)[..|a + b| - 1] == a + b[..n];
      assert (a + b)[|a + b| - 1] == b[n];
      WritesAppend(a, b[..n]);
    }
  }

  lemma LoadNoticesWriteNothing(c: Codec, data: Option<Settings>, prefs: map<string, string>)
    ensures Writes(LoadNotices(c, data, prefs)) == 0
  {
  }

  // -----------------------------------------------------------------------
  // The flag machine on its own

  datatype Flags = Flags(paused: bool, pending: bool)

  /** The flags after a call, and how many preferences writes it made. */
  datatype Step = Step(flags: Flags, writes: nat)

  /** Save: paused, it only marks the save pending; otherwise it clears the
      mark and writes unless saving is disabled. */
  function SaveStep(f: Flags, disabled: bool): (r: Step)
    ensures f.paused ==> r == Step(Flags(true, true), 0)
    ensures !f.paused ==> !r.flags.paused && !r.flags.pending && (r.writes == 1 <==> !disabled) && r.writes <= 1
  {
    if f.paused then Step(Flags(true, true), 0)
    else Step(Flags(false, false), if disabled then 0 else 1)
  }

  /** Assigning SavePaused: only a true-to-false change with a pending save saves. */
  function SetPausedStep(f: Flags, value: bool, disabled: bool): (r: Step)
    ensures r.flags.paused == value
    ensures !(f.paused && !value && f.pending) ==> r == Step(Flags(value, f.pending), 0)
    ensures f.paused && !value && f.pending ==> r == SaveStep(Flags(false, true), disabled)
  {
    if f.paused && !value && f.pending then SaveStep(Flags(false, true), disabled)
    else Step(Flags(value, f.pending), 0)
  }

  /** A block of code run while the store is in use: a Save call, a
      SavePauseScope around a body, or a SaveOnChange scope around a body
      whose change check reports `changed`. */
  datatype Block = SaveCall | PauseScope(body: seq<Block>) | ChangeScope(body: seq<Block>, changed: bool)

  /** Running one block from the given flags. */
  function RunBlock(f: Flags, b: Block, disabled: bool): Step
    decreases b
  {
    match b
    case SaveCall => SaveStep(f, disabled)
    case PauseScope(body) =>
      var enter := SetPausedStep(f, true, disabled);
      var inner := Run(enter.flags, body, disabled);
      var exit := SetPausedStep(inner.flags, f.paused, disabled);
      Step(exit.flags, enter.writes + inner.writes + exit.writes)
    case ChangeScope(body, changed) =>
      var enter := SetPausedStep(f, true, disabled);
      var inner := Run(enter.flags, body, disabled);
      var save := if changed then SaveStep(inner.flags, disabled) else Step(inner.flags, 0);
      var exit := SetPausedStep(save.flags, f.paused, disabled);
      Step(exit.flags, enter.writes + inner.writes + save.writes + exit.writes)
  }

  /** Running blocks in order from the given flags. */
  function Run(f: Flags, blocks: seq<Block>, disabled: bool): Step
    decreases blocks
  {
    if blocks == [] then Step(f, 0)
    else
      var first := RunBlock(f, blocks[0], disabled);
      var rest := Run(first.flags, blocks[1..], disabled);
      Step(rest.flags, first.writes + rest.writes)
  }

  /** Whether a block asks for a save anywhere. */
  predicate BlockAsksToSave(b: Block)
    decreases b
  {
    match b
    case SaveCall => true
    case PauseScope(body) => AsksToSave(body)
    case ChangeScope(body, changed) => changed || AsksToSave(body)
  }

  predicate AsksToSave(blocks: seq<Block>)
    decreases blocks
  {
    blocks != [] && (BlockAsksToSave(blocks[0]) || AsksToSave(blocks[1..]))
  }

  /** Inside a pause nothing is written; the flags stay paused and a save
      asked for anywhere is left pending. */
  lemma {:induction false} PausedRunDefers(f: Flags, blocks: seq<Block>, disabled: bool)
    requires f.paused
    ensures Run(f, blocks, disabled) == Step(Flags(true, f.pending || AsksToSave(blocks)), 0)
    decreases blocks
  {
    if blocks != [] {
      PausedBlockDefers(f, blocks[0], disabled);
      PausedRunDefers(RunBlock(f, blocks[0], disabled).flags, blocks[1..], disabled);
    }
  }

  lemma {:induction false} PausedBlockDefers(f: Flags, b: Block, disabled: bool)
    requires f.paused
    ensures RunBlock(f, b, disabled) == Step(Flags(true, f.pending || BlockAsksToSave(b)), 0)
    decreases b
  {
    match b
    case SaveCall =>
    case PauseScope(body) =>
      PausedRunDefers(f, body, disabled);
    case ChangeScope(body, changed) =>
      PausedRunDefers(f, body, disabled);
  }

  /** The consistency the flags keep: a save is pending only while paused. */
  predicate Consistent(f: Flags) {
    !f.paused ==> !f.pending
  }

  lemma {:induction false} RunKeepsConsistent(f: Flags, blocks: seq<Block>, disabled: bool)
    requires Consistent(f)
    ensures Consistent(Run(f, blocks, disabled).flags)
    decreases blocks
  {
    if blocks != [] {
      BlockKeepsConsistent(f, blocks[0], disabled);
      RunKeepsConsistent(RunBlock(f, blocks[0], disabled).flags, blocks[1..], disabled);
    }
  }

  lemma BlockKeepsConsistent(f: Flags, b: Block, disabled: bool)
    requires Consistent(f)
    ensures Consistent(RunBlock(f, b, disabled).flags)
  {
    if !f.paused && !b.SaveCall? {
      PausedRunDefers(Flags(true, false), b.body, disabled);
    }
  }

  /** An outermost scope, entered with no save pending, writes exactly once
      when it exits if its body (or, for SaveOnChange, the change check)
      asked for a save and saving is enabled; nothing is written before the
      exit, and the flags are back to unpaused with nothing pending. */
  lemma OutermostPauseScopeFlushesOnce(body: seq<Block>, disabled: bool)
    ensures var r := RunBlock(Flags(false, false), PauseScope(body), disabled);
      r.flags == Flags(false, false) && r.writes == (if AsksToSave(body) && !disabled then 1 else 0)
  {
    PausedRunDefers(Flags(true, false), body, disabled);
  }

  lemma OutermostChangeScopeFlushesOnce(body: seq<Block>, changed: bool, disabled: bool)
    ensures var r := RunBlock(Flags(false, false), ChangeScope(body, changed), disabled);
      r.flags == Flags(false, false) && r.writes == (if (changed || AsksToSave(body)) && !disabled then 1 else 0)
  {
    PausedRunDefers(Flags(true, false), body, disabled);
  }

  // -----------------------------------------------------------------------
  // The store

  class SettingsStore {
    const codec: Codec
    /** `_saveDisabled`; nothing in the source assigns it. */
    const saveDisabled: bool
    var savePaused: bool
    var pendingSave: bool
    var data: Option<Settings>
    var prefs: map<string, string>
    var log: seq<Notice>

    constructor (codec: Codec, saveDisabled: bool, prefs: map<string, string>)
      ensures this.codec == codec && this.saveDisabled == saveDisabled && this.prefs == prefs
      ensures !savePaused && !pendingSave && data == None && log == []
    {
      this.codec := codec;
      this.saveDisabled := saveDisabled;
      this.prefs := prefs;
      savePaused, pendingSave, data, log := false, false, None, [];
    }

    function FlagState(): Flags
      reads this
    {
      Flags(savePaused, pendingSave)
    }

    /** The state Save leaves, given the state it started from (apart from
        SavePaused, which it does not change). */
    ghost predicate AfterSave(paused0: bool, data0: Option<Settings>, prefs0: map<string, string>, log0: seq<Notice>)
      reads this
    {
      if paused0 then pendingSave && data == data0 && prefs == prefs0 && log == log0
      else if saveDisabled then !pendingSave && data == data0 && prefs == prefs0 && log == log0
      else
        var s := Current(codec, data0, prefs0);
        && !pendingSave && data == Some(s)
        && prefs == prefs0[PrefsKey := Persisted(codec, s)]
        && log == log0 + LoadNotices(codec, data0, prefs0) + [Written]
    }

    /** The state an assignment SavePaused = value leaves. */
    ghost predicate AfterSetPaused(value: bool, paused0: bool, pending0: bool, data0: Option<Settings>,
                                   prefs0: map<string, string>, log0: seq<Notice>)
      reads this
    {
      savePaused == value &&
      if paused0 && !value && pending0 then AfterSave(false, data0, prefs0, log0)
      else pendingSave == pending0 && data == data0 && prefs == prefs0 && log == log0
    }

    /** The Data property: loads on first use, then returns the same instance. */
    method Data() returns (s: Settings)
      modifies this
      ensures s == Current(codec, old(data), old(prefs)) && data == Some(s)
      ensures log == old(log) + LoadNotices(codec, old(data), old(prefs))
      ensures savePaused == old(savePaused) && pendingSave == old(pendingSave) && prefs == old(prefs)
    {
      if data.None? {
        Load();
      }
      s := data.value;
    }

    /** Load: any failure is caught, reported and replaced by the defaults. */
    method Load()
      modifies this
      ensures data == Some(AfterLoad(codec, old(data), old(prefs)))
      ensures log == old(log) + (match LoadOutcome(codec, StoredText(old(prefs)))
                                  case Err(e) => [LoadWarning(e)]
                                  case Ok(_) => [])
      ensures savePaused == old(savePaused) && pendingSave == old(pendingSave) && prefs == old(prefs)
    {
      var fullData := StoredText(prefs);
      if !IsBlank(fullData) {
        var decoded := DecompressString(codec.bytes, fullData);
        if decoded.Err? {
          data := Some(DefaultSettings());
          log := log + [LoadWarning(Undecodable(decoded.error))];
          return;
        }
        fullData := decoded.value;
      }
      assert FullText(codec, StoredText(prefs)) == Ok(fullData);
      var dataDictionary: map<string, string> := map[];
      if fullData != "" {
        var table := BuildTable(Matches(fullData, 0));
        if table.Err? {
          data := Some(DefaultSettings());
          log := log + [LoadWarning(DuplicateTag(table.error))];
          return;
        }
        dataDictionary := table.value;
      }
      if MainTag in dataDictionary {
        var parsed := codec.fromJson(dataDictionary[MainTag]);
        if parsed.None? {
          data := Some(DefaultSettings());
          log := log + [LoadWarning(BadJson)];
          return;
        }
        data := parsed;
      }
      if data.None? {
        data := Some(DefaultSettings());
      }
    }

    /** Save: paused, it only marks the save pending; otherwise it writes the
        compressed MAIN section unless saving is disabled. */
    method Save()
      modifies this
      ensures savePaused == old(savePaused)
      ensures AfterSave(old(savePaused), old(data), old(prefs), old(log))
      ensures FlagState() == SaveStep(old(FlagState()), saveDisabled).flags
      ensures Writes(log) == Writes(old(log)) + SaveStep(old(FlagState()), saveDisabled).writes
    {
      pendingSave := false;
      if savePaused {
        pendingSave := true;
      } else if !saveDisabled {
        var s := Data();
        var rawData := SectionText(MainTag, codec.toJson(s));
        var compressedData := CompressString(codec.bytes, rawData);
        prefs := prefs[PrefsKey := compressedData];
        ghost var beforeWrite := log;
        log := log + [Written];
        WritesAppend(old(log), LoadNotices(codec, old(data), old(prefs)));
        WritesAppend(beforeWrite, [Written]);
        assert Writes([Written]) == 1;
      }
    }

    /** The SavePaused setter: a true-to-false change with a save pending saves. */
    method SetSavePaused(value: bool)
      modifies this
      ensures AfterSetPaused(value, old(savePaused), old(pendingSave), old(data), old(prefs), old(log))
      ensures FlagState() == SetPausedStep(old(FlagState()), value, saveDisabled).flags
      ensures Writes(log) == Writes(old(log)) + SetPausedStep(old(FlagState()), value, saveDisabled).writes
    {
      var wasPaused := savePaused;
      savePaused := value;
      if wasPaused && !savePaused && pendingSave {
        Save();
      }
    }

    /** Clear: a default instance, the OnClear callback, then Save. */
    method Clear()
      modifies this
      ensures savePaused == old(savePaused)
      ensures AfterSave(old(savePaused), Some(DefaultSettings()), old(prefs), old(log) + [Cleared])
    {
      data := Some(DefaultSettings());
      log := log + [Cleared];
      Save();
    }

    /** SavedBool.Value = v: an equal value changes nothing; a different one
        is stored and saved. */
    method SetBool(f: BoolSetting, v: bool)
      modifies this
      ensures savePaused == old(savePaused)
      ensures var s0 := Current(codec, old(data), old(prefs));
              var log0 := old(log) + LoadNotices(codec, old(data), old(prefs));
              if s0.Bool(f) == v then data == Some(s0) && pendingSave == old(pendingSave) && prefs == old(prefs) && log == log0
              else AfterSave(old(savePaused), Some(s0.WithBool(f, v)), old(prefs), log0)
    {
      var s0 := Data();
      if s0.Bool(f) == v {
        return;
      }
      data := Some(s0.WithBool(f, v));
      Save();
    }

    /** SavedBool.Toggle: always a change, so always a save. */
    method Toggle(f: BoolSetting)
      modifies this
      ensures savePaused == old(savePaused)
      ensures var s0 := Current(codec, old(data), old(prefs));
              AfterSave(old(savePaused), Some(s0.WithBool(f, !s0.Bool(f))), old(prefs),
                        old(log) + LoadNotices(codec, old(data), old(prefs)))
    {
      var s0 := Data();
      SetBool(f, !s0.Bool(f));
    }

    /** SavedFloat.Value = v, with Mathf.Approximately read as equality. */
    method SetNumber(f: FloatSetting, v: int)
      modifies this
      ensures savePaused == old(savePaused)
      ensures var s0 := Current(codec, old(data), old(prefs));
              var log0 := old(log) + LoadNotices(codec, old(data), old(prefs));
              if s0.Number(f) == v then data == Some(s0) && pendingSave == old(pendingSave) && prefs == old(prefs) && log == log0
              else AfterSave(old(savePaused), Some(s0.WithNumber(f, v)), old(prefs), log0)
    {
      var s0 := Data();
      if s0.Number(f) == v {
        return;
      }
      data := Some(s0.WithNumber(f, v));
      Save();
    }

    /** SavedString.Value = v on one of the hidden type names. */
    method SetHiddenType(i: nat, v: string)
      requires i < |Current(codec, data, prefs).hiddenIconTypes|
      modifies this
      ensures savePaused == old(savePaused)
      ensures var s0 := Current(codec, old(data), old(prefs));
              var log0 := old(log) + LoadNotices(codec, old(data), old(prefs));
              if s0.hiddenIconTypes[i] == v then data == Some(s0) && pendingSave == old(pendingSave) && prefs == old(prefs) && log == log0
              else AfterSave(old(savePaused), Some(s0.WithHiddenType(i, v)), old(prefs), log0)
    {
      var s0 := Data();
      if s0.hiddenIconTypes[i] == v {
        return;
      }
      data := Some(s0.WithHiddenType(i, v));
      Save();
    }

    /** SavedColor.Color = c: stored and saved even when it is unchanged. */
    method SetColor(f: ColorSetting, c: Color)
      modifies this
      ensures savePaused == old(savePaused)
      ensures var s0 := Current(codec, old(data), old(prefs));
              AfterSave(old(savePaused), Some(s0.WithColor(f, c)), old(prefs),
                        old(log) + LoadNotices(codec, old(data), old(prefs)))
    {
      var s0 := Data();
      data := Some(s0.WithColor(f, c));
      Save();
    }
  }

  /** The Dictionary.Add loop of Load over the section matches. */
  method BuildTable(matches: seq<Section>) returns (r: Result<map<string, string>, string>)
    ensures r == SectionTable(matches)
  {
    var dataDictionary: map<string, string> := map[];
    var i := 0;
    while i < |matches|
      invariant 0 <= i <= |matches|
      invariant SectionTable(matches[..i]) == Ok(dataDictionary)
    {
      var m := matches[i];
      assert matches[..i + 1][..i] == matches[..i];
      if m.tag in dataDictionary {
        TableFailureStays(matches, i + 1);
        return Err(m.tag);
      }
      dataDictionary := dataDictionary[m.tag := m.payload];
      i := i + 1;
    }
    assert matches[..i] == matches;
    return Ok(dataDictionary);
  }

  /** A failed tag table stays failed as more sections follow. */
  lemma {:induction false} TableFailureStays(sections: seq<Section>, k: nat)
    requires k <= |sections| && SectionTable(sections[..k]).Err?
    ensures SectionTable(sections) == SectionTable(sections[..k])
    decreases |sections| - k
  {
    if k < |sections| {
      assert sections[..k + 1][..k] == sections[..k];
      TableFailureStays(sections, k + 1);
    } else {
      assert sections[..k] == sections;
    }
  }

  /** SavePauseScope: pauses saving and puts the previous value back on Dispose. */
  class SavePauseScope {
    const store: SettingsStore
    const wasPaused: bool

    constructor (store: SettingsStore)
      modifies store
      ensures this.store == store && wasPaused == old(store.savePaused)
      ensures store.AfterSetPaused(true, old(store.savePaused), old(store.pendingSave), old(store.data),
                                   old(store.prefs), old(store.log))
    {
      this.store := store;
      wasPaused := store.savePaused;
      store.SetSavePaused(true);
    }

    method Dispose()
      modifies store
      ensures store.AfterSetPaused(wasPaused, old(store.savePaused), old(store.pendingSave), old(store.data),
                                   old(store.prefs), old(store.log))
      ensures store.FlagState() == SetPausedStep(old(store.FlagState()), wasPaused, store.saveDisabled).flags
      ensures Writes(store.log) == Writes(old(store.log)) + SetPausedStep(old(store.FlagState()), wasPaused, store.saveDisabled).writes
    {
      store.SetSavePaused(wasPaused);
    }
  }

  /** SaveOnChange: pauses saving; on Dispose, if the change check reports a
      change, runs the callback and saves, then puts the previous pause back. */
  class SaveOnChange {
    const store: SettingsStore
    const hasCallback: bool
    const wasPaused: bool

    constructor (store: SettingsStore, hasCallback: bool)
      modifies store
      ensures this.store == store && this.hasCallback == hasCallback && wasPaused == old(store.savePaused)
      ensures store.AfterSetPaused(true, old(store.savePaused), old(store.pendingSave), old(store.data),
                                   old(store.prefs), old(store.log))
    {
      this.store := store;
      this.hasCallback := hasCallback;
      wasPaused := store.savePaused;
      store.SetSavePaused(true);
    }

    function Callback(): seq<Notice>
      reads this
    {
      if hasCallback then [ChangeCallback] else []
    }

    /** `hasChanged` is what the GUI change check reports. */
    method Dispose(hasChanged: bool)
      modifies store
      ensures !hasChanged ==>
        store.AfterSetPaused(wasPaused, old(store.savePaused), old(store.pendingSave), old(store.data),
                             old(store.prefs), old(store.log))
      ensures hasChanged && old(store.savePaused) ==>
        store.AfterSetPaused(wasPaused, true, true, old(store.data), old(store.prefs), old(store.log) + Callback())
      ensures hasChanged && !old(store.savePaused) ==>
        store.savePaused == wasPaused && store.AfterSave(false, old(store.data), old(store.prefs), old(store.log) + Callback())
    {
      if hasChanged {
        store.log := store.log + Callback();
        store.Save();
      }
      store.SetSavePaused(wasPaused);
    }
  }

  /** A store that saved settings `s` hands them to the next session. */
  lemma SavedEntryReloads(store: SettingsStore, s: Settings, prefs0: map<string, string>)
    requires ValidCodec(store.codec, s) && SafePayload(store.codec.toJson(s))
    requires |store.codec.bytes.utf8Encode(MainText(store.codec, s))| < 0x8000_0000
    requires store.prefs == prefs0[PrefsKey := Persisted(store.codec, s)]
    ensures SameValues(Current(store.codec, None, store.prefs), s)
  {
    SaveThenLoad(store.codec, s, prefs0);
  }
}
