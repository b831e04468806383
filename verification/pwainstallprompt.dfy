/**
 * The install prompt shown when the browser offers to install the app: the
 * mount-time installed/dismissed decision, the install, dismiss and later
 * buttons, and the render gate. The environment, the storage, the clock,
 * the browser's events and the user's answer are parameters.
 */
module PWAInstallPrompt {
  import opened Wrappers
  import opened Text
  import opened LocalStorage

  const WasInstalledKey := "pwa-was-installed"
  const InstallDismissedKey := "pwa-install-dismissed"
  const ForcePromptKey := "pwa-force-prompt"

  /** What the mount effect reads from the browser. */
  datatype Env = Env(displayStandalone: bool, navigatorStandalone: bool)

  /** The component's state; `deferredPrompt` says whether a `beforeinstallprompt` event is held. */
  datatype State = State(deferredPrompt: bool, showInstallPrompt: bool, isInstalled: bool, dismissed: bool)

  const Initial := State(false, false, false, false)

  predicate Standalone(env: Env) {
    env.displayStandalone || env.navigatorStandalone
  }

  /** A dismissal stored less than 7 days ago. */
  predicate RecentlyDismissed(local: Store, now: int) {
    DismissedWithin(Get(local, InstallDismissedKey), now, 7 * DayMs)
  }

  /** The development-only override read by the debug timer and the render gate. */
  predicate ForceShow(dev: bool, local: Store) {
    dev && Get(local, ForcePromptKey) == Some("true")
  }

  /**
   * The mount effect with its listener and debug timer settled: standalone
   * display marks the app installed and remembers it; a remembered
   * installation marks it installed; a recent dismissal marks the prompt
   * dismissed; otherwise the prompt is shown when the browser fires
   * `beforeinstallprompt` (`promptEvent`) or, in development, when the
   * force flag is stored.
   */
  function Mount(env: Env, local: Store, now: int, promptEvent: bool, dev: bool): (r: (State, Store))
    ensures r.0.isInstalled <==> Standalone(env) || Get(local, WasInstalledKey) == Some("true")
    ensures Standalone(env) ==> r.1 == local[WasInstalledKey := "true"]
    ensures !Standalone(env) ==> r.1 == local
    ensures r.0.dismissed <==> !r.0.isInstalled && RecentlyDismissed(local, now)
    ensures r.0.showInstallPrompt <==>
      !r.0.isInstalled && !r.0.dismissed && (promptEvent || ForceShow(dev, local))
    ensures r.0.deferredPrompt ==> promptEvent
  {
    if Standalone(env) then (Initial.(isInstalled := true), local[WasInstalledKey := "true"])
    else if Get(local, WasInstalledKey) == Some("true") then (Initial.(isInstalled := true), local)
    else if RecentlyDismissed(local, now) then (Initial.(dismissed := true), local)
    else if promptEvent then (Initial.(deferredPrompt := true, showInstallPrompt := true), local)
    else (Initial.(showInstallPrompt := ForceShow(dev, local)), local)
  }

  /** The `appinstalled` listener: installed, hidden, prompt dropped, installation remembered. */
  function AppInstalled(s: State, local: Store): (r: (State, Store))
    ensures r.0 == s.(isInstalled := true, showInstallPrompt := false, deferredPrompt := false)
    ensures Get(r.1, WasInstalledKey) == Some("true")
    ensures forall k :: k != WasInstalledKey ==> Get(r.1, k) == Get(local, k)
  {
    (s.(isInstalled := true, showInstallPrompt := false, deferredPrompt := false), local[WasInstalledKey := "true"])
  }

  /** `handleDismiss`: hide, mark dismissed, record the time. */
  function HandleDismiss(s: State, local: Store, now: nat): (r: (State, Store))
    ensures r.0 == s.(showInstallPrompt := false, dismissed := true)
    ensures Get(r.1, InstallDismissedKey) == Some(Decimal(now))
    ensures forall k :: k != InstallDismissedKey ==> Get(r.1, k) == Get(local, k)
  {
    (s.(showInstallPrompt := false, dismissed := true), local[InstallDismissedKey := Decimal(now)])
  }

  /**
   * `handleInstallClick`: with a held prompt, show the browser's dialog
   * (`choice` is its answer, or the error it threw); a declined dialog is
   * a dismissal; either answer drops the prompt and hides the banner; an
   * error changes nothing. Without a prompt the click is a dismissal.
   */
  function HandleInstallClick(s: State, local: Store, now: nat, choice: Result<Outcome, Thrown>): (r: (State, Store))
    ensures s.deferredPrompt && choice.Err? ==> r == (s, local)
    ensures s.deferredPrompt && choice.Ok? ==> !r.0.deferredPrompt && !r.0.showInstallPrompt
    ensures s.deferredPrompt && choice == Ok(Accepted) ==> r == (s.(deferredPrompt := false, showInstallPrompt := false), local)
    ensures !s.deferredPrompt ==> r == HandleDismiss(s, local, now)
  {
    if s.deferredPrompt then
      match choice
      case Err(_) => (s, local)
      case Ok(Accepted) => (s.(deferredPrompt := false, showInstallPrompt := false), local)
      case Ok(Declined) =>
        var d := HandleDismiss(s, local, now);
        (d.0.(deferredPrompt := false, showInstallPrompt := false), d.1)
    else HandleDismiss(s, local, now)
  }

  /** A click records a dismissal exactly when there is no prompt or the user declines it. */
  lemma InstallClickRecordsDismissal(s: State, local: Store, now: nat, choice: Result<Outcome, Thrown>)
    requires InstallDismissedKey !in local
    ensures var r := HandleInstallClick(s, local, now, choice);
      (Get(r.1, InstallDismissedKey) == Some(Decimal(now)) <==> !s.deferredPrompt || choice == Ok(Declined))
      && (r.0.dismissed <==> s.dismissed || !s.deferredPrompt || choice == Ok(Declined))
  {
  }

  /**
   * The development timer each run of the effect schedules. The effect
   * runs again whenever the held prompt, the installed mark or the
   * dismissed mark changes; one second later its timer shows the prompt
   * when no prompt is held, the app is not installed, the prompt is not
   * dismissed and the force flag is stored. Nothing else changes.
   */
  function DebugTimer(s: State, local: Store, dev: bool): (r: State)
    ensures r.showInstallPrompt <==>
      s.showInstallPrompt || (!s.deferredPrompt && !s.isInstalled && !s.dismissed && ForceShow(dev, local))
    ensures r.(showInstallPrompt := s.showInstallPrompt) == s
    ensures !dev ==> r == s
  {
    if dev && !s.deferredPrompt && !s.isInstalled && !s.dismissed && Get(local, ForcePromptKey) == Some("true")
    then s.(showInstallPrompt := true)
    else s
  }

  /**
   * An accepted install drops the held prompt, so the effect runs again;
   * until `appinstalled` arrives, its timer shows the prompt again exactly
   * when the development force flag is stored. A declined install is a
   * dismissal, and the timer leaves the prompt hidden.
   */
  lemma InstallClickThenTimer(s: State, local: Store, now: nat, dev: bool)
    requires s.deferredPrompt && !s.isInstalled && !s.dismissed
    ensures var after := HandleInstallClick(s, local, now, Ok(Accepted));
      Visible(DebugTimer(after.0, after.1, dev), ForceShow(dev, after.1)) <==> ForceShow(dev, local)
    ensures var after := HandleInstallClick(s, local, now, Ok(Declined));
      !Visible(DebugTimer(after.0, after.1, dev), ForceShow(dev, after.1))
  {
  }

  /** `handleLater`: hide now; after 30 minutes show again if not installed and a prompt is held. */
  function HandleLater(s: State): (r: (State, Reminder))
    ensures r.0 == s.(showInstallPrompt := false)
    ensures r.1.delay == 30 * 60 * 1000
    ensures r.1.reshow <==> !s.isInstalled && s.deferredPrompt
  {
    (s.(showInstallPrompt := false), Reminder(30 * 60 * 1000, !s.isInstalled && s.deferredPrompt))
  }

  function Remind(s: State, r: Reminder): State {
    if r.reshow then s.(showInstallPrompt := true) else s
  }

  /** The render gate: hidden when installed, when dismissed (unless forced), or when not asked to show. */
  predicate Visible(s: State, forceShow: bool) {
    !(s.isInstalled || (s.dismissed && !forceShow) || !s.showInstallPrompt)
  }

  /**
   * Standalone mode marks the app installed and remembers it: a later
   * mount in a browser tab sees the installation and never shows the
   * prompt.
   */
  lemma StandaloneRemembered(env: Env, browser: Env, local: Store, now: int, later: int,
                             promptEvent: bool, dev: bool)
    requires Standalone(env)
    ensures var first := Mount(env, local, now, promptEvent, dev);
      var second := Mount(browser, first.1, later, promptEvent, dev);
      second.0.isInstalled
      && !Visible(first.0, ForceShow(dev, first.1)) && !Visible(second.0, ForceShow(dev, second.1))
  {
  }

  /**
   * Dismissing at `t` and mounting again at `later` (not standalone, no
   * installation remembered) marks the prompt dismissed exactly while less
   * than 7 days have passed.
   */
  lemma DismissalRoundTrip(s: State, env: Env, local: Store, t: nat, later: int, promptEvent: bool, dev: bool)
    requires !Standalone(env)
    requires Get(local, WasInstalledKey) != Some("true")
    ensures var stored := HandleDismiss(s, local, t).1;
      Mount(env, stored, later, promptEvent, dev).0.dismissed <==> later - t < 7 * DayMs
  {
    StampRoundTrip(t, later, 7 * DayMs);
  }

  /** Once installed, nothing the buttons or the reminder do makes the prompt visible. */
  lemma InstalledNeverVisible(s: State, local: Store, now: nat, choice: Result<Outcome, Thrown>, forceShow: bool)
    requires s.isInstalled
    ensures !Visible(s, forceShow)
    ensures !Visible(HandleInstallClick(s, local, now, choice).0, forceShow)
    ensures !Visible(HandleDismiss(s, local, now).0, forceShow)
    ensures !Visible(Remind(HandleLater(s).0, HandleLater(s).1), forceShow)
  {
  }

  /** Outside development a dismissal hides the prompt for the rest of the session. */
  lemma DismissedHidden(s: State, local: Store, now: nat, choice: Result<Outcome, Thrown>)
    requires s.dismissed
    ensures !Visible(s, false)
    ensures !Visible(Remind(HandleLater(s).0, HandleLater(s).1), false)
    ensures !Visible(HandleInstallClick(s, local, now, choice).0, false)
  {
  }

  /** A dismissed prompt shows again only through the development force flag. */
  lemma ForceOverridesDismissal(s: State)
    requires s.dismissed && !s.isInstalled && s.showInstallPrompt
    ensures Visible(s, true) && !Visible(s, false)
  {
  }
}
