/** The application shell's light/dark theme. The first mode comes from the
    saved `theme` entry, or the system preference when nothing is saved.
    Toggling flips the mode, saves it at once and, for a signed-in user,
    writes it to the user's settings row, creating the row with defaults
    when it does not exist. When a user signs in, the settings row's mode
    replaces the local one if it differs from the saved entry. Browser
    storage, the media query and every database reply are inputs. */
module Layout {
  import opened Wrappers

  const DarkText := "dark"
  const LightText := "light"
  /** The database error code for "no row found". */
  const NoRowCode := "PGRST116"
  /** The search radius a newly created settings row gets. */
  const DefaultRadiusKm := 10

  /** `theme` as saved for a mode. */
  function ThemeText(dark: bool): (t: string)
    ensures t == DarkText <==> dark
    ensures t != []
  {
    if dark then DarkText else LightText
  }

  /** `getInitialTheme`: a non-empty saved entry decides (dark exactly when
      it reads `dark`); otherwise the system preference does. */
  function InitialTheme(saved: Option<string>, systemDark: bool): (dark: bool)
    ensures saved.Some? && saved.value != [] ==> (dark <==> saved.value == DarkText)
    ensures saved.None? || saved.value == [] ==> dark == systemDark
  {
    if saved.Some? && saved.value != [] then saved.value == DarkText else systemDark
  }

  /** The shell's state: the mode shown and the saved `theme` entry. */
  datatype ThemeState = ThemeState(darkMode: bool, stored: Option<string>)

  /** The saved entry records the mode shown. */
  predicate Consistent(s: ThemeState) {
    s.stored == Some(ThemeText(s.darkMode))
  }

  /** `update({ dark_mode }).eq('user_id', userId)` on the settings table. */
  datatype ThemeUpdate = ThemeUpdate(userId: string, darkMode: bool)

  /** The settings row created when the user has none; the default map
      location it also carries is not modelled. */
  datatype SettingsInsert = SettingsInsert(userId: string, darkMode: bool, searchRadiusKm: int)

  /** The database writes of one `syncThemeWithSupabase` call. */
  datatype SyncEffects = SyncEffects(update: Option<ThemeUpdate>, insert: Option<SettingsInsert>)

  const NoSync := SyncEffects(None, None)

  /** `syncThemeWithSupabase(user, darkMode)`, given the reply to the
      update. Without a user nothing is written. Otherwise the update is
      sent; a missing row is then created with the mode and the default
      radius, and any other error changes nothing. */
  function SyncTheme(user: Option<string>, darkMode: bool, reply: DbReply): (e: SyncEffects)
    ensures user.None? ==> e == NoSync
    ensures user.Some? ==> e.update == Some(ThemeUpdate(user.value, darkMode))
    ensures e.insert.Some? <==> user.Some? && reply.DbError? && reply.code == NoRowCode
    ensures e.insert.Some? ==> e.insert.value == SettingsInsert(user.value, darkMode, DefaultRadiusKm)
  {
    match user
    case None => NoSync
    case Some(userId) =>
      var insert :=
        if reply.DbError? && reply.code == NoRowCode then Some(SettingsInsert(userId, darkMode, DefaultRadiusKm))
        else None;
      SyncEffects(Some(ThemeUpdate(userId, darkMode)), insert)
  }

  /** `toggleDarkMode`, given the current user and the reply to the sync's
      update. The mode flips, the saved entry records the new mode, and the
      new mode is written remotely only for a signed-in user. */
  function Toggle(s: ThemeState, user: Option<string>, reply: DbReply): (r: (ThemeState, SyncEffects))
    ensures r.0.darkMode == !s.darkMode && Consistent(r.0)
    ensures r.1.update.Some? <==> user.Some?
    ensures r.1 == SyncTheme(user, !s.darkMode, reply)
  {
    var dark := !s.darkMode;
    (ThemeState(dark, Some(ThemeText(dark))), SyncTheme(user, dark, reply))
  }

  /** After a toggle, a reload starts in the toggled mode, whatever the
      system preference. */
  lemma ToggleSurvivesReload(s: ThemeState, user: Option<string>, reply: DbReply, systemDark: bool)
    ensures var t := Toggle(s, user, reply).0;
      InitialTheme(t.stored, systemDark) == t.darkMode
  {
  }

  /** Toggling twice restores the mode, and restores the saved entry when it
      recorded the mode. */
  lemma ToggleTwice(s: ThemeState, user: Option<string>, reply1: DbReply, reply2: DbReply)
    ensures Toggle(Toggle(s, user, reply1).0, user, reply2).0.darkMode == s.darkMode
    ensures Consistent(s) ==> Toggle(Toggle(s, user, reply1).0, user, reply2).0 == s
  {
  }

  /** The reply to `select('dark_mode').eq('user_id', …).single()`: the
      row's mode, neither a row nor an error, or an error code. */
  datatype SettingsReply = SettingsRow(darkMode: bool) | SettingsNone | SettingsError(code: string)

  /** `loadUserSettings` as written, given the reply to the settings query
      and the reply to the update of a sync it starts. A row whose mode
      differs from what the saved entry says (dark exactly when it reads
      `dark`) replaces the mode and the entry; a missing row starts a sync
      of the current mode; anything else changes nothing. The comparison is
      with the saved entry, not with the mode shown. */
  function LoadSettings(s: ThemeState, userId: string, reply: SettingsReply, syncReply: DbReply): (r: (ThemeState, SyncEffects))
    ensures reply.SettingsRow? && (s.stored == Some(DarkText)) != reply.darkMode ==>
      r == (ThemeState(reply.darkMode, Some(ThemeText(reply.darkMode))), NoSync)
    ensures reply.SettingsRow? && (s.stored == Some(DarkText)) == reply.darkMode ==> r == (s, NoSync)
    ensures reply.SettingsError? && reply.code == NoRowCode ==>
      r == (s, SyncTheme(Some(userId), s.darkMode, syncReply))
    ensures !reply.SettingsRow? && !(reply.SettingsError? && reply.code == NoRowCode) ==> r == (s, NoSync)
  {
    match reply
    case SettingsRow(remote) =>
      var savedDark := s.stored == Some(DarkText);
      if savedDark != remote then (ThemeState(remote, Some(ThemeText(remote))), NoSync)
      else (s, NoSync)
    case SettingsNone => (s, NoSync)
    case SettingsError(code) =>
      if code == NoRowCode then (s, SyncTheme(Some(userId), s.darkMode, syncReply))
      else (s, NoSync)
  }

  /** With nothing saved and a dark system preference, the shell starts
      dark; a settings row asking for light then leaves it dark, because
      the absent entry already reads as "not dark". */
  lemma RemoteLightIgnored(userId: string, syncReply: DbReply)
    ensures var s := ThemeState(InitialTheme(None, true), None);
      && s.darkMode
      && LoadSettings(s, userId, SettingsRow(false), syncReply).0.darkMode
  {
  }

  /** `loadUserSettings` comparing the row's mode with the mode shown: a row
      always decides the mode shown. The saved entry is rewritten only when
      the mode changes; a row that agrees with the mode shown changes
      nothing, so an entry that recorded the mode before still does. */
  function LoadSettingsByMode(s: ThemeState, userId: string, reply: SettingsReply, syncReply: DbReply): (r: (ThemeState, SyncEffects))
    ensures reply.SettingsRow? ==> r.0.darkMode == reply.darkMode && r.1 == NoSync
    ensures reply.SettingsRow? && reply.darkMode != s.darkMode ==> Consistent(r.0)
    ensures reply.SettingsRow? && reply.darkMode == s.darkMode ==> r.0 == s
    ensures reply.SettingsRow? && Consistent(s) ==> Consistent(r.0)
    ensures !reply.SettingsRow? ==> r == LoadSettings(s, userId, reply, syncReply)
  {
    match reply
    case SettingsRow(remote) =>
      if s.darkMode != remote then (ThemeState(remote, Some(ThemeText(remote))), NoSync)
      else (s, NoSync)
    case _ => LoadSettings(s, userId, reply, syncReply)
  }

  /** When the saved entry records the mode shown, the code as written and
      the mode-based comparison agree, and the row's mode is shown after
      either. */
  lemma LoadAgreesWhenConsistent(s: ThemeState, userId: string, reply: SettingsReply, syncReply: DbReply)
    requires Consistent(s)
    ensures LoadSettings(s, userId, reply, syncReply) == LoadSettingsByMode(s, userId, reply, syncReply)
    ensures reply.SettingsRow? ==> LoadSettings(s, userId, reply, syncReply).0.darkMode == reply.darkMode
  {
  }
}
