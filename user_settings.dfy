/** `UserSettingsManager` of src/settings/userSettings.ts: the player's audio
    and motion preferences. The settings record and its `cueVolumes` table are
    objects, so that the sharing the code sets up between the live settings
    and `defaultSettings` is visible: loading without a stored value adopts
    the defaults object itself, and `reset` copies only its top level. */
module Settings {
  import opened Common

  /** The `cueVolumes` record: a table of per-cue volumes, mutated in place. */
  class CueTable {
    var volumes: map<string, real>

    constructor (volumes: map<string, real>)
      ensures this.volumes == volumes
    {
      this.volumes := volumes;
    }
  }

  /** A `UserSettings` object. */
  class UserSettings {
    var masterVolume: real
    var muted: bool
    var reduceMotion: bool
    var cueVolumes: CueTable

    constructor (masterVolume: real, muted: bool, reduceMotion: bool, cueVolumes: CueTable)
      ensures this.masterVolume == masterVolume && this.muted == muted
      ensures this.reduceMotion == reduceMotion && this.cueVolumes == cueVolumes
    {
      this.masterVolume := masterVolume;
      this.muted := muted;
      this.reduceMotion := reduceMotion;
      this.cueVolumes := cueVolumes;
    }

    /** `defaultSettings`: volume 0.7, not muted, reduced motion as the
        display's `prefers-reduced-motion` query says, no cue volumes. */
    constructor Defaults(prefersReducedMotion: bool)
      ensures masterVolume == 0.7 && !muted && reduceMotion == prefersReducedMotion
      ensures fresh(cueVolumes) && cueVolumes.volumes == map[]
    {
      masterVolume := 0.7;
      muted := false;
      reduceMotion := prefersReducedMotion;
      cueVolumes := new CueTable(map[]);
    }
  }

  /** The fields a stored JSON value carries; an absent field keeps the
      default's. */
  datatype Stored = Stored(
    masterVolume: Option<real>,
    muted: Option<bool>,
    reduceMotion: Option<bool>,
    cueVolumes: Option<map<string, real>>)

  /** What `saveSettings` writes under 'godseed-settings'. */
  datatype Saved = Saved(masterVolume: real, muted: bool, reduceMotion: bool, cueVolumes: map<string, real>)

  function OrElse<T>(o: Option<T>, d: T): T
  {
    if o.Some? then o.value else d
  }

  class UserSettingsManager {
    /** The live settings object. */
    var settings: UserSettings
    /** The module's `defaultSettings` object. */
    const defaults: UserSettings
    /** The last value written to local storage by this manager. */
    var saved: Option<Saved>

    /** `new UserSettingsManager()` with `loadSettings()`: `stored` is the
        parsed stored value, or None when nothing usable is stored (absent,
        empty, or not JSON). Without one the defaults object itself becomes
        the live settings; with one a new object takes the stored fields over
        the defaults, sharing the defaults' cue table unless a table is
        stored. */
    constructor (defaults: UserSettings, stored: Option<Stored>)
      ensures this.defaults == defaults && saved == None
      ensures stored.None? ==> settings == defaults
      ensures stored.Some? ==>
                && fresh(settings)
                && settings.masterVolume == OrElse(stored.value.masterVolume, defaults.masterVolume)
                && settings.muted == OrElse(stored.value.muted, defaults.muted)
                && settings.reduceMotion == OrElse(stored.value.reduceMotion, defaults.reduceMotion)
                && (stored.value.cueVolumes.None? ==> settings.cueVolumes == defaults.cueVolumes)
                && (stored.value.cueVolumes.Some? ==>
                      fresh(settings.cueVolumes) && settings.cueVolumes.volumes == stored.value.cueVolumes.value)
    {
      this.defaults := defaults;
      saved := None;
      if stored.None? {
        settings := defaults;
      } else {
        var s := stored.value;
        var table := defaults.cueVolumes;
        if s.cueVolumes.Some? {
          table := new CueTable(s.cueVolumes.value);
        }
        settings := new UserSettings(OrElse(s.masterVolume, defaults.masterVolume), OrElse(s.muted, defaults.muted),
                                     OrElse(s.reduceMotion, defaults.reduceMotion), table);
      }
    }

    /** What `JSON.stringify(this.settings)` records. */
    function Snapshot(): Saved
      reads this, settings, settings.cueVolumes
    {
      Saved(settings.masterVolume, settings.muted, settings.reduceMotion, settings.cueVolumes.volumes)
    }

    /** `getMasterVolume()`: silent while muted. */
    function MasterVolume(): (v: real)
      reads this, settings
      ensures settings.muted ==> v == 0.0
      ensures !settings.muted ==> v == settings.masterVolume
    {
      if settings.muted then 0.0 else settings.masterVolume
    }

    /** `isMuted()` */
    function IsMuted(): bool
      reads this, settings
    {
      settings.muted
    }

    /** `shouldReduceMotion()` */
    function ShouldReduceMotion(): bool
      reads this, settings
    {
      settings.reduceMotion
    }

    /** `getCueVolume(cueId)`: full volume for a cue never set. */
    function CueVolume(cueId: string): (v: real)
      reads this, settings, settings.cueVolumes
      ensures cueId !in settings.cueVolumes.volumes ==> v == 1.0
      ensures cueId in settings.cueVolumes.volumes ==> v == settings.cueVolumes.volumes[cueId]
    {
      if cueId in settings.cueVolumes.volumes then settings.cueVolumes.volumes[cueId] else 1.0
    }

    /** `setMasterVolume(volume)`: stores the volume clamped to [0, 1] and
        saves; nothing else changes, and unmuted the volume read back is the
        clamped one. */
    method SetMasterVolume(volume: real)
      modifies this, settings
      ensures settings == old(settings) && settings.masterVolume == Clamp(volume, 0.0, 1.0)
      ensures settings.muted == old(settings.muted) && settings.reduceMotion == old(settings.reduceMotion)
      ensures settings.cueVolumes == old(settings.cueVolumes)
      ensures 0.0 <= MasterVolume() <= 1.0
      ensures !settings.muted ==> MasterVolume() == Clamp(volume, 0.0, 1.0)
      ensures saved == Some(Snapshot())
    {
      settings.masterVolume := Max(0.0, Min(1.0, volume));
      saved := Some(Snapshot());
    }

    /** `setMuted(muted)`: changes only the muted flag, and saves. */
    method SetMuted(muted: bool)
      modifies this, settings
      ensures settings == old(settings) && settings.muted == muted
      ensures settings.masterVolume == old(settings.masterVolume) && settings.reduceMotion == old(settings.reduceMotion)
      ensures settings.cueVolumes == old(settings.cueVolumes)
      ensures muted ==> MasterVolume() == 0.0
      ensures saved == Some(Snapshot())
    {
      settings.muted := muted;
      saved := Some(Snapshot());
    }

    /** `setReduceMotion(reduce)`: changes only the reduced-motion flag, and
        saves. */
    method SetReduceMotion(reduce: bool)
      modifies this, settings
      ensures settings == old(settings) && settings.reduceMotion == reduce
      ensures settings.masterVolume == old(settings.masterVolume) && settings.muted == old(settings.muted)
      ensures settings.cueVolumes == old(settings.cueVolumes)
      ensures saved == Some(Snapshot())
    {
      settings.reduceMotion := reduce;
      saved := Some(Snapshot());
    }

    /** `setCueVolume(cueId, volume)`: writes the clamped volume into the cue
        table in place (so into every settings object sharing it), leaves the
        other cues alone, and saves. */
    method SetCueVolume(cueId: string, volume: real)
      modifies this, settings.cueVolumes
      ensures settings == old(settings) && settings.cueVolumes == old(settings.cueVolumes)
      ensures settings.cueVolumes.volumes == old(settings.cueVolumes.volumes)[cueId := Clamp(volume, 0.0, 1.0)]
      ensures CueVolume(cueId) == Clamp(volume, 0.0, 1.0)
      ensures forall other :: other != cueId ==> CueVolume(other) == old(CueVolume(other))
      ensures saved == Some(Snapshot())
    {
      settings.cueVolumes.volumes := settings.cueVolumes.volumes[cueId := Max(0.0, Min(1.0, volume))];
      saved := Some(Snapshot());
    }

    /** `reset()`: a new settings object with the defaults' current top-level
        fields, whose cue table is the defaults' own table; then saves. */
    method Reset()
      modifies this
      ensures fresh(settings)
      ensures settings.masterVolume == defaults.masterVolume && settings.muted == defaults.muted
      ensures settings.reduceMotion == defaults.reduceMotion && settings.cueVolumes == defaults.cueVolumes
      ensures saved == Some(Snapshot())
    {
      settings := new UserSettings(defaults.masterVolume, defaults.muted, defaults.reduceMotion, defaults.cueVolumes);
      saved := Some(Snapshot());
    }

    /** `getAllSettings()`: a new object with the same top-level fields, so the
        cue table is shared with the live settings. */
    method GetAllSettings() returns (copy: UserSettings)
      ensures fresh(copy)
      ensures copy.masterVolume == settings.masterVolume && copy.muted == settings.muted
      ensures copy.reduceMotion == settings.reduceMotion && copy.cueVolumes == settings.cueVolumes
    {
      copy := new UserSettings(settings.masterVolume, settings.muted, settings.reduceMotion, settings.cueVolumes);
    }
  }

  /** When the live settings are the defaults object (nothing was stored), a
      volume set before `reset` survives it: the setter wrote into the
      defaults. */
  method ResetAfterAdoptingDefaults(m: UserSettingsManager, volume: real)
    requires m.settings == m.defaults
    modifies m, m.settings
    ensures m.settings.masterVolume == Clamp(volume, 0.0, 1.0)
  {
    m.SetMasterVolume(volume);
    m.Reset();
  }

  /** When the live settings are a separate object, `reset` brings back the
      defaults' volume. */
  method ResetAfterLoading(m: UserSettingsManager, volume: real)
    requires m.settings != m.defaults
    modifies m, m.settings
    ensures m.settings.masterVolume == old(m.defaults.masterVolume)
  {
    m.SetMasterVolume(volume);
    m.Reset();
  }

  /** A cue volume set while the live settings share the defaults' cue table
      survives `reset`, whichever object the settings were. */
  method ResetKeepsSharedCues(m: UserSettingsManager, cueId: string, volume: real)
    requires m.settings.cueVolumes == m.defaults.cueVolumes
    modifies m, m.settings.cueVolumes
    ensures m.CueVolume(cueId) == Clamp(volume, 0.0, 1.0)
  {
    m.SetCueVolume(cueId, volume);
    m.Reset();
  }

  /** Replacing a top-level field of the copy `getAllSettings` returns leaves
      the live settings alone, while writing into its cue table changes the
      live cue volumes. */
  method CopyIsShallow(m: UserSettingsManager, cueId: string)
    modifies m.settings.cueVolumes
    ensures m.settings.masterVolume == old(m.settings.masterVolume)
    ensures m.CueVolume(cueId) == 0.0
  {
    var copy := m.GetAllSettings();
    copy.masterVolume := 0.0;
    copy.cueVolumes.volumes := copy.cueVolumes.volumes[cueId := 0.0];
  }
}
