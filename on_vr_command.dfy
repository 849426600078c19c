/**
 * OnVRCommandNotification: the HMI reports that the user spoke a VR
 * command.  Command ids up to the profile's max_cmd_id are ordinary
 * commands of an application; max_cmd_id + 1 is the standard "Help"
 * command; an id above that selects an application to activate, at offset
 * cmd_id - max_cmd_id.  All of this is `unsigned int` arithmetic, which
 * wraps modulo 2^32.
 */
module OnVrCommand {
  import opened Common
  import opened Applications
  import opened ApplicationManager

  /** What the handler reads of an application: its id and is_perform_interaction_active(). */
  datatype AppView = AppView(appId: Uint32, performInteractionActive: Uint32)

  /** The branch Run takes. */
  datatype Outcome =
    | ActivateApp(id: Uint32)        // MessageHelper::SendActivateAppToHMI(id)
    | ShowVrHelp(appId: Uint32)      // MessageHelper::SendShowVrHelpToHMI(active_app)
    | RaiseShowVrHelpEvent           // event UI_ShowVrHelp with the message
    | RaiseVrOnCommandEvent          // event VR_OnCommand with the message
    | ForwardToMobile                // OnCommand with trigger source VR, to mobile
    | Ignore                         // a NULL application: nothing happens

  /**
   * The decision of Run for command `cmdId`, the active application (None
   * for NULL) and the application the message names (None when
   * application(app_id) is NULL).
   */
  function Dispatch(cmdId: Uint32, maxCmdId: Uint32, active: Option<AppView>, target: Option<AppView>): Outcome {
    var help := AddU32(maxCmdId, 1);
    if active.None? && cmdId > help then ActivateApp(SubU32(cmdId, maxCmdId))
    else if active.None? then Ignore
    else if cmdId > maxCmdId then
      if help == cmdId && active.value.performInteractionActive == 0 then ShowVrHelp(active.value.appId)
      else if help == cmdId then RaiseShowVrHelpEvent
      else ActivateApp(SubU32(cmdId, maxCmdId))
    else if target.None? then Ignore
    else if target.value.performInteractionActive != 0 then RaiseVrOnCommandEvent
    else ForwardToMobile
  }

  /**
   * Without wrap-around (max_cmd_id below UINT_MAX) an activation names the
   * offset of the command above max_cmd_id, which is at least 2: offset 1 is
   * the help command.
   */
  lemma ActivationOffset(cmdId: Uint32, maxCmdId: Uint32, active: Option<AppView>, target: Option<AppView>)
    requires maxCmdId < UINT_MAX
    ensures Dispatch(cmdId, maxCmdId, active, target).ActivateApp? <==>
              cmdId >= maxCmdId + 2
    ensures Dispatch(cmdId, maxCmdId, active, target).ActivateApp? ==>
              var id := Dispatch(cmdId, maxCmdId, active, target).id;
              id >= 2 && cmdId == maxCmdId + id
  {
  }

  /** The help command: shown by the handler or passed to a running PerformInteraction, never an activation. */
  lemma HelpCommand(maxCmdId: Uint32, active: AppView, target: Option<AppView>)
    requires maxCmdId < UINT_MAX
    ensures var o := Dispatch(maxCmdId + 1, maxCmdId, Some(active), target);
            && (active.performInteractionActive == 0 ==> o == ShowVrHelp(active.appId))
            && (active.performInteractionActive != 0 ==> o == RaiseShowVrHelpEvent)
  {
  }

  /**
   * An ordinary command reaches mobile exactly when an application is
   * active and the named application exists and runs no PerformInteraction;
   * during one, it goes to the PerformInteraction as an event instead.
   * Below the wrap-around it is otherwise dropped.
   */
  lemma OrdinaryCommand(cmdId: Uint32, maxCmdId: Uint32, active: Option<AppView>, target: Option<AppView>)
    requires cmdId <= maxCmdId
    ensures var o := Dispatch(cmdId, maxCmdId, active, target);
            && (o == ForwardToMobile <==> active.Some? && target.Some? && target.value.performInteractionActive == 0)
            && (o == RaiseVrOnCommandEvent <==> active.Some? && target.Some? && target.value.performInteractionActive != 0)
            && (maxCmdId < UINT_MAX ==> (o == Ignore <==> active.None? || target.None?))
  {
  }

  /** Without an active application only an activation can happen. */
  lemma NoActiveApplication(cmdId: Uint32, maxCmdId: Uint32, target: Option<AppView>)
    requires maxCmdId < UINT_MAX
    ensures var o := Dispatch(cmdId, maxCmdId, None, target);
            && (o.ActivateApp? <==> cmdId >= maxCmdId + 2)
            && (!o.ActivateApp? ==> o == Ignore)
  {
  }

  /**
   * With max_cmd_id == UINT_MAX the help id max_cmd_id + 1 wraps to 0:
   * without an active application every non-zero command activates
   * application cmd_id + 1 (mod 2^32), and with one no command is above
   * max_cmd_id, so every command is ordinary.
   */
  lemma MaxCmdIdWraps(cmdId: Uint32, active: Option<AppView>, target: Option<AppView>)
    ensures active.None? && cmdId > 0 ==> Dispatch(cmdId, UINT_MAX, active, target) == ActivateApp(AddU32(cmdId, 1))
    ensures active.Some? ==> !Dispatch(cmdId, UINT_MAX, active, target).ActivateApp?
  {
    if active.None? && cmdId > 0 {
      assert SubU32(cmdId, UINT_MAX) == cmdId + 1 || cmdId == UINT_MAX;
    }
  }

  /** mobile_apis::FunctionID values the handler writes */
  datatype MobileFunctionId = OnCommandID

  /** mobile_apis::TriggerSource */
  datatype TriggerSource = TS_MENU | TS_VR | TS_KEYBOARD

  /** hmi_apis::FunctionID values that name the raised events */
  datatype EventId = UI_ShowVrHelp | VR_OnCommand

  /** The notification's message, which Run rewrites before forwarding it. */
  class VrCommandMessage {
    /** msg_params.cmd_id and msg_params.app_id */
    const cmdId: Uint32
    const appId: Uint32
    /** params.function_id and msg_params.trigger_source as Run leaves them (None: not set by Run) */
    var functionId: Option<MobileFunctionId>
    var triggerSource: Option<TriggerSource>

    constructor (cmdId: Uint32, appId: Uint32)
      ensures this.cmdId == cmdId && this.appId == appId && functionId.None? && triggerSource.None?
    {
      this.cmdId := cmdId;
      this.appId := appId;
      functionId := None;
      triggerSource := None;
    }
  }

  /** A snapshot of the message. */
  datatype MessageValue = MessageValue(cmdId: Uint32, appId: Uint32, functionId: Option<MobileFunctionId>,
                                       triggerSource: Option<TriggerSource>)

  /** What Run causes outside the handler, in order. */
  datatype Effect =
    | ActivateAppSent(id: Uint32)
    | ShowVrHelpSent(appId: Uint32)
    | EventRaised(event: EventId, message: MessageValue)
    | SentToMobile(message: MessageValue)

  /** The effects of one Run that takes branch `o`, for the message as Run leaves it. */
  function EffectsOf(o: Outcome, message: MessageValue): seq<Effect> {
    match o
    case ActivateApp(id) => [ActivateAppSent(id)]
    case ShowVrHelp(appId) => [ShowVrHelpSent(appId)]
    case RaiseShowVrHelpEvent => [EventRaised(UI_ShowVrHelp, message)]
    case RaiseVrOnCommandEvent => [EventRaised(VR_OnCommand, message)]
    case ForwardToMobile => [SentToMobile(message)]
    case Ignore => []
  }

  class OnVrCommandNotification {
    const message: VrCommandMessage
    var effects: seq<Effect>

    constructor (message: VrCommandMessage)
      ensures this.message == message && effects == []
    {
      this.message := message;
      effects := [];
    }

    function MessageSnapshot(): MessageValue
      reads message
    {
      MessageValue(message.cmdId, message.appId, message.functionId, message.triggerSource)
    }

    /**
     * Run, with active_application() (NULL or not) and the profile's
     * max_cmd_id as parameters.
     */
    method Run(mgr: ApplicationManagerImpl, activeApp: Application?, maxCmdId: Uint32)
      modifies this`effects, message
      ensures var active := if activeApp == null then None else Some(AppView(activeApp.appId, activeApp.performInteractionActive));
              var key := ToInt32(message.appId);
              var target := if key in mgr.applications
                            then Some(AppView(mgr.applications[key].appId, mgr.applications[key].performInteractionActive))
                            else None;
              var o := Dispatch(message.cmdId, maxCmdId, active, target);
              && effects == old(effects) + EffectsOf(o, MessageSnapshot())
              && (o == ForwardToMobile ==> message.functionId == Some(OnCommandID) && message.triggerSource == Some(TS_VR))
              && (o != ForwardToMobile ==>
                    message.functionId == old(message.functionId) && message.triggerSource == old(message.triggerSource))
    {
      var cmdId := message.cmdId;
      if activeApp == null && cmdId > AddU32(maxCmdId, 1) {
        effects := effects + [ActivateAppSent(SubU32(cmdId, maxCmdId))];
        return;
      } else if activeApp == null {
        return;
      }

      if cmdId > maxCmdId {
        if AddU32(maxCmdId, 1) == cmdId && 0 == activeApp.performInteractionActive {
          effects := effects + [ShowVrHelpSent(activeApp.appId)];
        } else if AddU32(maxCmdId, 1) == cmdId && 0 != activeApp.performInteractionActive {
          effects := effects + [EventRaised(UI_ShowVrHelp, MessageSnapshot())];
        } else {
          effects := effects + [ActivateAppSent(SubU32(cmdId, maxCmdId))];
        }
        return;
      }
      var app := mgr.ApplicationById(ToInt32(message.appId));
      if app == null {
        return;
      }
      if 0 != app.performInteractionActive {
        effects := effects + [EventRaised(VR_OnCommand, MessageSnapshot())];
      } else {
        message.functionId := Some(OnCommandID);
        message.triggerSource := Some(TS_VR);
        effects := effects + [SentToMobile(MessageSnapshot())];
      }
    }
  }
}
