/**
  The settings slice: whether first-run setup has finished, the prayer-time
  preferences and the user's location, with the slice's three reducers.
  Reducers are functions from the old state to the new one: the source writes
  them against a copy-on-write draft, so no caller can observe an update in place.
*/
module Settings {
  import opened Wrappers

  datatype Madhab = Standard | Hanafi

  datatype Theme = Light | Dark | System

  /** A position; its coordinates are only stored and displayed, never computed on. */
  datatype Location = Location(lat: real, lng: real, city: string)

  datatype SettingsState = SettingsState(
    isSetupComplete: bool,
    calculationMethod: string,
    madhab: Madhab,
    location: Option<Location>,  // None is the source's `null`
    theme: Theme)

  /**
    A partial settings record. A field is None when its key is absent;
    `location` is Some(None) when the key is present with the value `null`.
  */
  datatype Patch = Patch(
    isSetupComplete: Option<bool>,
    calculationMethod: Option<string>,
    madhab: Option<Madhab>,
    location: Option<Option<Location>>,
    theme: Option<Theme>)

  /** The actions the slice accepts, one per reducer. */
  datatype Action =
    | CompleteSetupAction
    | UpdateLocationAction(location: Location)
    | UpdateSettingsAction(patch: Patch)

  /** The names of the slice's fields, to say which of them an update touches. */
  datatype Field = SetupFlag | CalculationMethod | MadhabChoice | LocationField | ThemeChoice

  /** The fields on which two settings values differ. */
  function Diff(s: SettingsState, t: SettingsState): (fs: set<Field>)
    ensures fs == {} <==> s == t
  {
    (if s.isSetupComplete != t.isSetupComplete then {SetupFlag} else {}) +
    (if s.calculationMethod != t.calculationMethod then {CalculationMethod} else {}) +
    (if s.madhab != t.madhab then {MadhabChoice} else {}) +
    (if s.location != t.location then {LocationField} else {}) +
    (if s.theme != t.theme then {ThemeChoice} else {})
  }

  /** The fields whose keys a patch carries. */
  function Patched(p: Patch): set<Field> {
    (if p.isSetupComplete.Some? then {SetupFlag} else {}) +
    (if p.calculationMethod.Some? then {CalculationMethod} else {}) +
    (if p.madhab.Some? then {MadhabChoice} else {}) +
    (if p.location.Some? then {LocationField} else {}) +
    (if p.theme.Some? then {ThemeChoice} else {})
  }

  /** The state the slice starts from on a fresh install. */
  function Initial(): (r: SettingsState)
    ensures !r.isSetupComplete && r.location == None
    ensures r.calculationMethod == "ISNA" && r.madhab == Hanafi && r.theme == System
  {
    SettingsState(false, "ISNA", Hanafi, None, System)
  }

  /** `completeSetup`: raise the setup flag. */
  function CompleteSetup(s: SettingsState): (r: SettingsState)
    ensures r.isSetupComplete
    ensures Diff(s, r) <= {SetupFlag}
  {
    s.(isSetupComplete := true)
  }

  /** `updateLocation`: store the given position. */
  function UpdateLocation(s: SettingsState, loc: Location): (r: SettingsState)
    ensures r.location == Some(loc)
    ensures Diff(s, r) <= {LocationField}
  {
    s.(location := Some(loc))
  }

  /** `updateSettings`: the spread `{ ...state, ...patch }`. */
  function UpdateSettings(s: SettingsState, p: Patch): (r: SettingsState)
    ensures Diff(s, r) <= Patched(p)
    ensures p.isSetupComplete.Some? ==> r.isSetupComplete == p.isSetupComplete.value
    ensures p.calculationMethod.Some? ==> r.calculationMethod == p.calculationMethod.value
    ensures p.madhab.Some? ==> r.madhab == p.madhab.value
    ensures p.location.Some? ==> r.location == p.location.value
    ensures p.theme.Some? ==> r.theme == p.theme.value
  {
    SettingsState(
      p.isSetupComplete.GetOr(s.isSetupComplete),
      p.calculationMethod.GetOr(s.calculationMethod),
      p.madhab.GetOr(s.madhab),
      p.location.GetOr(s.location),
      p.theme.GetOr(s.theme))
  }

  /**
    The slice reducer. Only `updateSettings` can lower the setup flag or clear
    the location; the other two reducers only ever set them.
  */
  function Reduce(s: SettingsState, a: Action): (r: SettingsState)
    ensures !a.UpdateSettingsAction? ==> (s.isSetupComplete ==> r.isSetupComplete)
    ensures !a.UpdateSettingsAction? ==> (s.location.Some? ==> r.location.Some?)
    ensures a.CompleteSetupAction? ==> Diff(s, r) <= {SetupFlag}
    ensures a.UpdateLocationAction? ==> Diff(s, r) <= {LocationField}
    ensures a.UpdateSettingsAction? ==> Diff(s, r) <= Patched(a.patch)
  {
    match a
    case CompleteSetupAction => CompleteSetup(s)
    case UpdateLocationAction(loc) => UpdateLocation(s, loc)
    case UpdateSettingsAction(p) => UpdateSettings(s, p)
  }

  /** The whole state as a record with every key present: what gets stored. */
  function ToPatch(s: SettingsState): (p: Patch)
    ensures Patched(p) == {SetupFlag, CalculationMethod, MadhabChoice, LocationField, ThemeChoice}
  {
    Patch(Some(s.isSetupComplete), Some(s.calculationMethod), Some(s.madhab), Some(s.location), Some(s.theme))
  }

  /** The patch the reset button sends: `{ isSetupComplete: false, location: null }`. */
  function ResetPatch(): (p: Patch)
    ensures Patched(p) == {SetupFlag, LocationField}
  {
    Patch(Some(false), None, None, Some(None), None)
  }

  lemma CompleteSetupIdempotent(s: SettingsState)
    ensures CompleteSetup(CompleteSetup(s)) == CompleteSetup(s)
  {
  }

  lemma UpdateSettingsIdempotent(s: SettingsState, p: Patch)
    ensures UpdateSettings(UpdateSettings(s, p), p) == UpdateSettings(s, p)
  {
  }

  /** Merging a record that carries every key is the same as replacing the state by it. */
  lemma MergeFullRecord(s: SettingsState, t: SettingsState)
    ensures UpdateSettings(s, ToPatch(t)) == t
  {
  }

  /** The reset lowers the flag and clears the location, and keeps the preferences. */
  lemma ResetClearsSetup(s: SettingsState)
    ensures var r := Reduce(s, UpdateSettingsAction(ResetPatch()));
      !r.isSetupComplete && r.location == None && Diff(s, r) <= {SetupFlag, LocationField}
  {
  }
}
