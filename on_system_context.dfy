/**
 * OnSystemContextNotification: the HMI reports a new system context.  Only
 * the active application is told.  For a media application, entering or
 * leaving a VR session mutes or unmutes its audio, and the manager's
 * vr_session_started flag follows the HMI.
 */
module OnSystemContext {
  import opened Common
  import opened Applications
  import opened ApplicationManager

  /** The audio state of a muted media application: attenuated if the HMI supports it, silent otherwise. */
  function Muted(attenuatedSupported: bool): AudioStreamingState {
    if attenuatedSupported then ATTENUATED else NOT_AUDIBLE
  }

  /** What the handler reads and writes: the application's context and audio state, and the manager's VR flag. */
  datatype ContextState = ContextState(systemContext: SystemContext, audio: AudioStreamingState, vrSessionStarted: bool)

  /** UpdateVRState on values: a change of the VR session mutes or unmutes, and the flag follows the HMI. */
  function VrUpdate(st: ContextState, vrActive: bool, attenuatedSupported: bool): ContextState {
    if st.vrSessionStarted != vrActive then
      st.(audio := if vrActive then Muted(attenuatedSupported) else AUDIBLE, vrSessionStarted := vrActive)
    else st
  }

  /** Run on values, for an active application. */
  function ContextStep(st: ContextState, isMedia: bool, attenuatedSupported: bool, ctx: SystemContext): ContextState {
    if ctx == st.systemContext then st
    else if isMedia then VrUpdate(st.(systemContext := ctx), ctx == SYSCTXT_VRSESSION, attenuatedSupported)
    else st.(systemContext := ctx)
  }

  /** Run notifies mobile exactly when the context changes. */
  predicate Notifies(st: ContextState, ctx: SystemContext) {
    ctx != st.systemContext
  }

  /**
   * After a change of context the application is in the new context; a
   * media application's VR flag says whether that context is a VR session
   * and its audio follows a change of that flag; a non-media application's
   * audio and the flag stay as they were.
   */
  lemma ContextChange(st: ContextState, isMedia: bool, attenuatedSupported: bool, ctx: SystemContext)
    ensures var st' := ContextStep(st, isMedia, attenuatedSupported, ctx);
            && st'.systemContext == ctx
            && (isMedia && Notifies(st, ctx) ==> st'.vrSessionStarted == (ctx == SYSCTXT_VRSESSION))
            && (isMedia && !st.vrSessionStarted && st'.vrSessionStarted ==> st'.audio == Muted(attenuatedSupported))
            && (isMedia && st.vrSessionStarted && !st'.vrSessionStarted ==> st'.audio == AUDIBLE)
            && (st'.vrSessionStarted == st.vrSessionStarted ==> st'.audio == st.audio)
            && (!isMedia ==> st'.audio == st.audio && st'.vrSessionStarted == st.vrSessionStarted)
  {
  }

  /** A repeated notification of the same context changes nothing and notifies nobody. */
  lemma ContextStepIdempotent(st: ContextState, isMedia: bool, attenuatedSupported: bool, ctx: SystemContext)
    ensures var st' := ContextStep(st, isMedia, attenuatedSupported, ctx);
            && ContextStep(st', isMedia, attenuatedSupported, ctx) == st'
            && !Notifies(st', ctx)
  {
  }

  /**
   * A media application that plays audibly outside a VR session is muted
   * while a VR session runs and gets its audio and context back when the
   * HMI returns to the previous context.
   */
  lemma VrSessionRoundTrip(st: ContextState, attenuatedSupported: bool)
    requires st.systemContext != SYSCTXT_VRSESSION && !st.vrSessionStarted && st.audio == AUDIBLE
    ensures var during := ContextStep(st, true, attenuatedSupported, SYSCTXT_VRSESSION);
            && during.audio == Muted(attenuatedSupported) && during.vrSessionStarted
            && ContextStep(during, true, attenuatedSupported, st.systemContext) == st
  {
  }

  /** What SendHMIStatusNotification sends for an application (its HMI level is not part of this model). */
  datatype HmiStatus = HmiStatus(appId: Uint32, audioStreamingState: AudioStreamingState, systemContext: SystemContext)

  method MuteAudioStream(mgr: ApplicationManagerImpl, app: Application)
    modifies app`audioStreamingState
    ensures app.audioStreamingState == Muted(mgr.attenuatedSupported)
  {
    if mgr.attenuatedSupported {
      app.audioStreamingState := ATTENUATED;
    } else {
      app.audioStreamingState := NOT_AUDIBLE;
    }
  }

  method UnmuteAudioStream(app: Application)
    modifies app`audioStreamingState
    ensures app.audioStreamingState == AUDIBLE
  {
    app.audioStreamingState := AUDIBLE;
  }

  method UpdateVRState(mgr: ApplicationManagerImpl, app: Application, vrSessionIsActiveOnHmi: bool)
    modifies mgr`vrSessionStarted, app`audioStreamingState
    ensures ContextState(app.systemContext, app.audioStreamingState, mgr.vrSessionStarted)
            == VrUpdate(ContextState(app.systemContext, old(app.audioStreamingState), old(mgr.vrSessionStarted)),
                        vrSessionIsActiveOnHmi, mgr.attenuatedSupported)
  {
    if mgr.vrSessionStarted != vrSessionIsActiveOnHmi {
      if vrSessionIsActiveOnHmi {
        MuteAudioStream(mgr, app);
      } else {
        UnmuteAudioStream(app);
      }
      mgr.vrSessionStarted := vrSessionIsActiveOnHmi;
    }
  }

  class OnSystemContextNotification {
    /** msg_params.systemContext */
    const systemContext: SystemContext
    /** SendHMIStatusNotification calls, in order */
    var hmiStatusNotifications: seq<HmiStatus>

    constructor (systemContext: SystemContext)
      ensures this.systemContext == systemContext && hmiStatusNotifications == []
    {
      this.systemContext := systemContext;
      hmiStatusNotifications := [];
    }

    /** Run, with active_application() (NULL or not) as a parameter. */
    method Run(mgr: ApplicationManagerImpl, activeApp: Application?)
      modifies this`hmiStatusNotifications, mgr`vrSessionStarted
      modifies (if activeApp == null then {} else {activeApp})`systemContext
      modifies (if activeApp == null then {} else {activeApp})`audioStreamingState
      ensures activeApp == null ==>
                hmiStatusNotifications == old(hmiStatusNotifications) && mgr.vrSessionStarted == old(mgr.vrSessionStarted)
      ensures activeApp != null ==>
                var before := ContextState(old(activeApp.systemContext), old(activeApp.audioStreamingState),
                                           old(mgr.vrSessionStarted));
                && ContextState(activeApp.systemContext, activeApp.audioStreamingState, mgr.vrSessionStarted)
                   == ContextStep(before, activeApp.isMedia, mgr.attenuatedSupported, systemContext)
                && hmiStatusNotifications == old(hmiStatusNotifications) +
                     (if Notifies(before, systemContext)
                      then [HmiStatus(activeApp.appId, activeApp.audioStreamingState, systemContext)]
                      else [])
    {
      var app := activeApp;
      if app != null {
        if systemContext != app.systemContext {
          app.systemContext := systemContext;
          if app.isMedia {
            UpdateVRState(mgr, app, SYSCTXT_VRSESSION == systemContext);
          }
          NotifyMobileApp(app);
        }
      }
    }

    method NotifyMobileApp(app: Application)
      modifies this`hmiStatusNotifications
      ensures hmiStatusNotifications
              == old(hmiStatusNotifications) + [HmiStatus(app.appId, app.audioStreamingState, app.systemContext)]
    {
      hmiStatusNotifications := hmiStatusNotifications + [HmiStatus(app.appId, app.audioStreamingState, app.systemContext)];
    }
  }
}
