/**
 * The notification banner that offers to install the app, or to open the
 * installed app when the site is viewed in a browser tab: the mount-time
 * decision, the dismiss and later buttons, and the render gate. The
 * environment, both storage areas and the clock are parameters; timers are
 * taken as having fired.
 */
module NotificationPrompt {
  import opened Wrappers
  import opened Text
  import opened LocalStorage

  const WasInstalledKey := "pwa-was-installed"
  const DetectedKey := "pwa-detected"
  const InstallDismissedKey := "pwa-install-dismissed"
  const OpenDismissedKey := "pwa-open-dismissed"
  const InstallAttemptedKey := "pwa-install-attempted"

  datatype NotificationKind = Install | Open

  /** What the component reads from the browser. */
  datatype Env = Env(displayStandalone: bool, navigatorStandalone: bool, referrer: string,
                     hasServiceWorker: bool)

  /** The component's state. */
  datatype State = State(showNotification: bool, isInstalled: bool, isStandalone: bool, dismissed: bool,
                         kind: NotificationKind, deferredPrompt: bool)

  const Initial := State(false, false, false, false, Install, false)

  /** Standalone display, iOS `navigator.standalone`, or a launch from an Android app. */
  predicate Standalone(env: Env) {
    env.displayStandalone || env.navigatorStandalone || Contains(env.referrer, "android-app://")
  }

  /** An installed app viewed in a browser: a service worker and a stored or session "installed" mark. */
  predicate InstalledPwa(env: Env, local: Store, session: Store) {
    env.hasServiceWorker
    && (Get(local, WasInstalledKey) == Some("true") || Get(session, DetectedKey) == Some("true"))
  }

  /** The 'open' banner is suppressed for 24 hours after its dismissal. */
  predicate OpenSuppressed(local: Store, now: int) {
    DismissedWithin(Get(local, OpenDismissedKey), now, 24 * HourMs)
  }

  /** The 'install' banner is suppressed for 7 days after its dismissal. */
  predicate InstallSuppressed(local: Store, now: int) {
    DismissedWithin(Get(local, InstallDismissedKey), now, 7 * DayMs)
  }

  /**
   * The mount effect, with its timers fired: nothing in standalone mode; for
   * an installed app in a browser the 'open' banner unless recently
   * dismissed; otherwise the 'install' banner unless recently dismissed
   * (`promptEvent` says whether the browser offered an install prompt).
   */
  function Mount(env: Env, local: Store, session: Store, now: int, promptEvent: bool): (s: State)
    ensures s.isStandalone <==> Standalone(env)
    ensures Standalone(env) ==> !s.showNotification && !s.dismissed
    ensures !Standalone(env) && InstalledPwa(env, local, session) ==>
      s.dismissed == OpenSuppressed(local, now) && s.showNotification == !s.dismissed
      && (s.showNotification ==> s.kind == Open)
    ensures !Standalone(env) && !InstalledPwa(env, local, session) ==>
      s.dismissed == InstallSuppressed(local, now) && s.showNotification == !s.dismissed
      && s.kind == Install
  {
    var installed := InstalledPwa(env, local, session);
    var base := Initial.(isStandalone := Standalone(env), isInstalled := installed);
    if Standalone(env) then base
    else if installed then
      if OpenSuppressed(local, now) then base.(dismissed := true)
      else base.(kind := Open, showNotification := true)
    else if InstallSuppressed(local, now) then base.(dismissed := true)
    else base.(kind := Install, showNotification := true, deferredPrompt := promptEvent)
  }

  /** The `appinstalled` listener: installed, hidden, prompt dropped, installation remembered. */
  function AppInstalled(s: State, local: Store): (r: (State, Store))
    ensures r.0 == s.(isInstalled := true, showNotification := false, deferredPrompt := false)
    ensures Get(r.1, WasInstalledKey) == Some("true")
    ensures forall k :: k != WasInstalledKey ==> Get(r.1, k) == Get(local, k)
  {
    (s.(isInstalled := true, showNotification := false, deferredPrompt := false), local[WasInstalledKey := "true"])
  }

  /**
   * After the app is installed from a browser tab, the next mount there
   * (with a service worker, outside standalone mode) takes it for an
   * installed app and offers the 'open' banner unless that was dismissed
   * within 24 hours.
   */
  lemma InstalledThenOpenOffered(s: State, env: Env, local: Store, session: Store, later: int, promptEvent: bool)
    requires env.hasServiceWorker && !Standalone(env)
    ensures var stored := AppInstalled(s, local).1;
      var m := Mount(env, stored, session, later, promptEvent);
      m.isInstalled && m.dismissed == OpenSuppressed(stored, later)
      && (m.showNotification <==> !OpenSuppressed(stored, later))
      && (m.showNotification ==> m.kind == Open)
  {
  }

  /** The storage key a dismissal of `kind` is recorded under. */
  function DismissKey(kind: NotificationKind): string {
    if kind == Install then InstallDismissedKey else OpenDismissedKey
  }

  /** `handleDismiss`: hide, mark dismissed, store the time under the banner kind's key. */
  function HandleDismiss(s: State, local: Store, now: nat): (r: (State, Store))
    ensures !r.0.showNotification && r.0.dismissed
    ensures r.0 == s.(showNotification := false, dismissed := true)
    ensures r.1 == local[DismissKey(s.kind) := Decimal(now)]
  {
    (s.(showNotification := false, dismissed := true), local[DismissKey(s.kind) := Decimal(now)])
  }

  /**
   * `handleInstallClick`, with its timers fired. With a held prompt the
   * browser's dialog is shown (`choice` is its answer, or the error it
   * threw): an acceptance marks the app installed and remembers it, either
   * answer drops the prompt, and every path hides the banner. Without one,
   * the click stores the attempt's time and dispatches a synthetic
   * `beforeinstallprompt`, which the component's own listener takes as a
   * held prompt for the 'install' banner; the banner is hidden 1.5 seconds
   * later. No path records a dismissal.
   */
  function HandleInstallClick(s: State, local: Store, now: nat, choice: Result<Outcome, Thrown>): (r: (State, Store))
    ensures !r.0.showNotification && r.0.dismissed == s.dismissed && r.0.isStandalone == s.isStandalone
    ensures r.0.isInstalled <==> s.isInstalled || (s.deferredPrompt && choice == Ok(Accepted))
    ensures s.deferredPrompt && choice.Ok? ==> !r.0.deferredPrompt
    ensures s.deferredPrompt && choice == Ok(Accepted) ==> r.1 == local[WasInstalledKey := "true"]
    ensures s.deferredPrompt && choice != Ok(Accepted) ==> r.1 == local
    ensures !s.deferredPrompt ==>
      r.1 == local[InstallAttemptedKey := Decimal(now)] && r.0.deferredPrompt && r.0.kind == Install
    ensures s.deferredPrompt ==> r.0.kind == s.kind
  {
    if s.deferredPrompt then
      match choice
      case Err(_) => (s.(showNotification := false), local)
      case Ok(Accepted) =>
        (s.(isInstalled := true, deferredPrompt := false, showNotification := false), local[WasInstalledKey := "true"])
      case Ok(Declined) => (s.(deferredPrompt := false, showNotification := false), local)
    else
      (s.(deferredPrompt := true, kind := Install, showNotification := false), local[InstallAttemptedKey := Decimal(now)])
  }

  /**
   * An install click changes neither banner's suppression on a later mount,
   * and after an accepted dialog that mount, in a browser tab with a
   * service worker, takes the app for installed.
   */
  lemma InstallClickKeepsSuppression(s: State, local: Store, now: nat, choice: Result<Outcome, Thrown>,
                                     env: Env, session: Store, later: int)
    ensures var stored := HandleInstallClick(s, local, now, choice).1;
      (InstallSuppressed(stored, later) <==> InstallSuppressed(local, later))
      && (OpenSuppressed(stored, later) <==> OpenSuppressed(local, later))
    ensures s.deferredPrompt && choice == Ok(Accepted) && env.hasServiceWorker ==>
      InstalledPwa(env, HandleInstallClick(s, local, now, choice).1, session)
  {
    var stored := HandleInstallClick(s, local, now, choice).1;
    assert Get(stored, InstallDismissedKey) == Get(local, InstallDismissedKey);
    assert Get(stored, OpenDismissedKey) == Get(local, OpenDismissedKey);
  }

  /**
   * `handleOpenInApp`: where `navigator.share` exists the page navigates to
   * its own address (`canShare`); elsewhere the banner switches to
   * 'install'. Either way it hides and dismisses, and the dismissal is
   * stored under the key of the kind shown when the button was pressed,
   * since `handleDismiss` reads the kind from before the switch.
   */
  function HandleOpenInApp(s: State, local: Store, now: nat, canShare: bool): (r: (State, Store))
    ensures !r.0.showNotification && r.0.dismissed
    ensures r.0.kind == (if canShare then s.kind else Install)
    ensures r.1 == HandleDismiss(s, local, now).1
    ensures r.0 == HandleDismiss(s, local, now).0.(kind := r.0.kind)
  {
    var kind := if canShare then s.kind else Install;
    var d := HandleDismiss(s, local, now);
    (d.0.(kind := kind), d.1)
  }

  /**
   * Pressing "open in app" on the 'open' banner where sharing is missing
   * switches the banner to 'install' but suppresses 'open' for 24 hours and
   * leaves the 'install' suppression as it was.
   */
  lemma OpenInAppDismissesOpen(s: State, local: Store, now: nat, later: int)
    requires s.kind == Open
    ensures var r := HandleOpenInApp(s, local, now, false);
      r.0.kind == Install
      && (OpenSuppressed(r.1, later) <==> later - now < 24 * HourMs)
      && (InstallSuppressed(r.1, later) <==> InstallSuppressed(local, later))
  {
    StampRoundTrip(now, later, 24 * HourMs);
    var r := HandleOpenInApp(s, local, now, false);
    assert Get(r.1, InstallDismissedKey) == Get(local, InstallDismissedKey);
  }

  /**
   * `handleLater`: hide now; come back after 30 minutes for 'install' and
   * 60 for 'open', outside standalone mode, and for 'install' only with a
   * deferred prompt.
   */
  function HandleLater(s: State): (r: (State, Reminder))
    ensures !r.0.showNotification && r.0 == s.(showNotification := false)
    ensures r.1.delay == (if s.kind == Install then 30 * 60 * 1000 else HourMs)
    ensures r.1.reshow <==> !s.isStandalone && (s.kind == Open || s.deferredPrompt)
  {
    var delay := if s.kind == Install then 30 * 60 * 1000 else 60 * 60 * 1000;
    (s.(showNotification := false), Reminder(delay, !s.isStandalone && (s.kind == Open || s.deferredPrompt)))
  }

  /** The reminder firing. */
  function Remind(s: State, r: Reminder): State {
    if r.reshow then s.(showNotification := true) else s
  }

  /** The render gate: not standalone, not dismissed, and asked to show. */
  predicate Visible(s: State) {
    !s.isStandalone && !s.dismissed && s.showNotification
  }

  /** In standalone mode nothing is ever shown, not even after a reminder. */
  lemma StandaloneNeverVisible(env: Env, local: Store, session: Store, now: int, promptEvent: bool)
    requires Standalone(env)
    ensures var s := Mount(env, local, session, now, promptEvent);
      !Visible(s) && !Visible(Remind(HandleLater(s).0, HandleLater(s).1))
  {
  }

  /** A dismissal hides the banner for the rest of the session, reminders included. */
  lemma DismissedStaysHidden(s: State, local: Store, now: nat)
    ensures var d := HandleDismiss(s, local, now).0;
      !Visible(d) && !Visible(Remind(HandleLater(d).0, HandleLater(d).1))
  {
  }

  /**
   * Dismissing the 'install' banner at `t` and mounting again at `later`
   * (still not installed, not standalone) suppresses it exactly while less
   * than 7 days have passed.
   */
  lemma InstallDismissalRoundTrip(s: State, env: Env, local: Store, session: Store, t: nat, later: int,
                                  promptEvent: bool)
    requires s.kind == Install
    requires !Standalone(env)
    ensures var stored := HandleDismiss(s, local, t).1;
      !InstalledPwa(env, stored, session) ==>
        (Mount(env, stored, session, later, promptEvent).dismissed <==> later - t < 7 * DayMs)
  {
    StampRoundTrip(t, later, 7 * DayMs);
  }

  /**
   * Dismissing the 'open' banner at `t` and mounting again at `later` (the
   * app still installed, not standalone) suppresses it exactly while less
   * than 24 hours have passed.
   */
  lemma OpenDismissalRoundTrip(s: State, env: Env, local: Store, session: Store, t: nat, later: int,
                               promptEvent: bool)
    requires s.kind == Open
    requires !Standalone(env)
    ensures var stored := HandleDismiss(s, local, t).1;
      InstalledPwa(env, stored, session) ==>
        (Mount(env, stored, session, later, promptEvent).dismissed <==> later - t < 24 * HourMs)
  {
    StampRoundTrip(t, later, 24 * HourMs);
  }

  /** A dismissal of one kind leaves the other kind's suppression as it was. */
  lemma DismissalsIndependent(s: State, local: Store, now: nat, later: int)
    ensures var stored := HandleDismiss(s, local, now).1;
      && (s.kind == Install ==> OpenSuppressed(stored, later) == OpenSuppressed(local, later))
      && (s.kind == Open ==> InstallSuppressed(stored, later) == InstallSuppressed(local, later))
  {
  }
}
