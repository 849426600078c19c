/**
 * ResetGlobalPropertiesRequest: the mobile request that resets some of an
 * application's global properties to their defaults.  The request scans its
 * list of property codes, resets the prompts and VR help of the application
 * and then sends up to two HMI requests, UI.SetGlobalProperties and
 * TTS.SetGlobalProperties, announcing on the first one how many legs the
 * mobile request has (its chaining counter).
 */
module ResetGlobalProperties {
  import opened Common
  import opened Applications
  import opened ApplicationManager

  /** mobile_apis::GlobalProperty; any other code falls to the default branch */
  datatype GlobalProperty =
    | HELPPROMT | TIMEOUTPROMT | VRHELPTITLE | VRHELPITEMS | MENUNAME | MENUICON | KEYBOARDPROPERTIES
    | Unknown(code: int)

  /** The local flags of Run, one per property it acts on. */
  datatype Flags = Flags(helpPrompt: bool, timeoutPrompt: bool, vrHelpTitle: bool, vrHelpItems: bool,
                         menuName: bool, menuIcon: bool, keyboardProperties: bool)

  const NoFlags := Flags(false, false, false, false, false, false, false)

  /**
   * One turn of the switch.  With an application present every Reset*
   * helper returns true, so each recognised code raises its flag.
   */
  function Mark(f: Flags, p: GlobalProperty): Flags {
    match p
    case HELPPROMT => f.(helpPrompt := true)
    case TIMEOUTPROMT => f.(timeoutPrompt := true)
    case VRHELPTITLE => f.(vrHelpTitle := true)
    case VRHELPITEMS => f.(vrHelpItems := true)
    case MENUNAME => f.(menuName := true)
    case MENUICON => f.(menuIcon := true)
    case KEYBOARDPROPERTIES => f.(keyboardProperties := true)
    case Unknown(_) => f
  }

  /** The flags after the switch has run over `props` from the first code on. */
  function FlagsOf(props: seq<GlobalProperty>): Flags {
    if props == [] then NoFlags else Mark(FlagsOf(props[..|props| - 1]), props[|props| - 1])
  }

  /** The flag that property `g` raises (none for an unknown code). */
  function FlagOf(f: Flags, g: GlobalProperty): bool {
    match g
    case HELPPROMT => f.helpPrompt
    case TIMEOUTPROMT => f.timeoutPrompt
    case VRHELPTITLE => f.vrHelpTitle
    case VRHELPITEMS => f.vrHelpItems
    case MENUNAME => f.menuName
    case MENUICON => f.menuIcon
    case KEYBOARDPROPERTIES => f.keyboardProperties
    case Unknown(_) => false
  }

  /** A turn of the switch raises the flag of its own code and leaves the others. */
  lemma MarkRaises(f: Flags, p: GlobalProperty, g: GlobalProperty)
    requires !g.Unknown?
    ensures FlagOf(Mark(f, p), g) == (FlagOf(f, g) || p == g)
  {
  }

  /** A turn of the switch, field by field. */
  lemma MarkFields(f: Flags, p: GlobalProperty)
    ensures var f' := Mark(f, p);
            && f'.helpPrompt == (f.helpPrompt || p == HELPPROMT)
            && f'.timeoutPrompt == (f.timeoutPrompt || p == TIMEOUTPROMT)
            && f'.vrHelpTitle == (f.vrHelpTitle || p == VRHELPTITLE)
            && f'.vrHelpItems == (f.vrHelpItems || p == VRHELPITEMS)
            && f'.menuName == (f.menuName || p == MENUNAME)
            && f'.menuIcon == (f.menuIcon || p == MENUICON)
            && f'.keyboardProperties == (f.keyboardProperties || p == KEYBOARDPROPERTIES)
  {
    match p {
      case HELPPROMT =>
      case TIMEOUTPROMT =>
      case VRHELPTITLE =>
      case VRHELPITEMS =>
      case MENUNAME =>
      case MENUICON =>
      case KEYBOARDPROPERTIES =>
      case Unknown(_) =>
    }
  }

  /** The switch has run over one more code. */
  lemma FlagsOfStep(props: seq<GlobalProperty>, i: nat)
    requires i < |props|
    ensures FlagsOf(props[..i + 1]) == Mark(FlagsOf(props[..i]), props[i])
  {
    assert props[..i + 1][..i] == props[..i];
  }

  /** The flag of a known code is raised exactly when the code occurs in the list. */
  lemma {:induction false} FlagOfMembership(props: seq<GlobalProperty>, g: GlobalProperty)
    requires !g.Unknown?
    ensures FlagOf(FlagsOf(props), g) <==> g in props
  {
    if props != [] {
      var n := |props| - 1;
      FlagOfMembership(props[..n], g);
      MarkRaises(FlagsOf(props[..n]), props[n], g);
      assert props == props[..n] + [props[n]];
    }
  }

  /** Each flag is raised exactly when its code occurs in the list. */
  lemma FlagsOfMembership(props: seq<GlobalProperty>)
    ensures var f := FlagsOf(props);
            && (f.helpPrompt <==> HELPPROMT in props)
            && (f.timeoutPrompt <==> TIMEOUTPROMT in props)
            && (f.vrHelpTitle <==> VRHELPTITLE in props)
            && (f.vrHelpItems <==> VRHELPITEMS in props)
            && (f.menuName <==> MENUNAME in props)
            && (f.menuIcon <==> MENUICON in props)
            && (f.keyboardProperties <==> KEYBOARDPROPERTIES in props)
  {
    FlagOfMembership(props, HELPPROMT);
    FlagOfMembership(props, TIMEOUTPROMT);
    FlagOfMembership(props, VRHELPTITLE);
    FlagOfMembership(props, VRHELPITEMS);
    FlagOfMembership(props, MENUNAME);
    FlagOfMembership(props, MENUICON);
    FlagOfMembership(props, KEYBOARDPROPERTIES);
  }

  /** Neither the order of the codes nor their repetition matters. */
  lemma FlagsOrderFree(props1: seq<GlobalProperty>, props2: seq<GlobalProperty>)
    requires forall p :: p in props1 <==> p in props2
    ensures FlagsOf(props1) == FlagsOf(props2)
  {
    FlagsOfMembership(props1);
    FlagsOfMembership(props2);
  }

  /** Unknown codes are skipped. */
  lemma FlagsIgnoreUnknown(props: seq<GlobalProperty>, code: int)
    ensures FlagsOf(props + [Unknown(code)]) == FlagsOf(props)
  {
    assert (props + [Unknown(code)])[..|props|] == props;
  }

  /** Some property that UI.SetGlobalProperties carries is reset. */
  predicate UiLeg(f: Flags) {
    f.vrHelpTitle || f.vrHelpItems || f.menuName || f.menuIcon || f.keyboardProperties
  }

  /** Some property that TTS.SetGlobalProperties carries is reset. */
  predicate TtsLeg(f: Flags) {
    f.timeoutPrompt || f.helpPrompt
  }

  /** chaining_counter: the number of HMI requests the mobile request waits for. */
  function ChainingCounter(f: Flags): nat {
    (if UiLeg(f) then 1 else 0) + (if TtsLeg(f) then 1 else 0)
  }

  /** Run returns before sending anything: the VR help is to be reset and CreateAppVrHelp gave NULL. */
  predicate Aborted(f: Flags, vrHelp: Option<Payload>) {
    (f.vrHelpTitle || f.vrHelpItems) && vrHelp.None?
  }

  /** hmi_apis::Common_Language values used here */
  datatype KeyboardLanguage = EN_US

  /** hmi_apis::Common_KeyboardLayout */
  datatype KeyboardLayout = QWERTY | QWERTZ | AZERTY

  datatype KeyboardProperties = KeyboardProperties(language: KeyboardLanguage, keyboardLayout: KeyboardLayout,
                                                   sendDynamicEntry: bool, limitedCharacterList: seq<string>,
                                                   autoCompleteText: string)

  /** The keyboard properties UI.SetGlobalProperties resets to. */
  const DefaultKeyboardProperties := KeyboardProperties(EN_US, QWERTY, false, [""], "")

  /** msg_params of UI.SetGlobalProperties: the VR help object, then the menu title and keyboard. */
  datatype UiParams = UiParams(vrHelp: Option<Payload>, menuTitle: Option<string>,
                               keyboardProperties: Option<KeyboardProperties>, appId: Uint32)

  /** msg_params of TTS.SetGlobalProperties */
  datatype TtsParams = TtsParams(helpPrompt: Option<seq<PromptItem>>, timeoutPrompt: Option<seq<PromptItem>>, appId: Uint32)

  datatype FunctionId = UI_SetGlobalProperties | TTS_SetGlobalProperties

  datatype Params = UiRequest(ui: UiParams) | TtsRequest(tts: TtsParams)

  /** A CreateHMIRequest call; `chainingCounter` is None when the default argument is used. */
  datatype HmiMessage = HmiMessage(functionId: FunctionId, params: Params, useEvents: bool, chainingCounter: Option<nat>)

  /** mobile_apis::Result codes used here */
  datatype ResultCode = APPLICATION_NOT_REGISTERED

  /** A SendResponse call. */
  datatype Response = Response(success: bool, resultCode: ResultCode)

  /** The prompt array built from the profile strings: one `{text: s}` per string, in order. */
  function PromptArray(strings: seq<string>): (r: seq<PromptItem>)
    ensures |r| == |strings| && forall i :: 0 <= i < |r| ==> r[i].text == strings[i]
  {
    if strings == [] then [] else PromptArray(strings[..|strings| - 1]) + [PromptItem(strings[|strings| - 1])]
  }

  /** The texts of a prompt array. */
  function Texts(arr: seq<PromptItem>): (r: seq<string>)
    ensures |r| == |arr|
  {
    if arr == [] then [] else Texts(arr[..|arr| - 1]) + [arr[|arr| - 1].text]
  }

  /** The texts of the prompt array are the profile strings again. */
  lemma {:induction false} TextsOfPromptArray(strings: seq<string>)
    ensures Texts(PromptArray(strings)) == strings
  {
    if strings != [] {
      var n := |strings| - 1;
      TextsOfPromptArray(strings[..n]);
      var arr := PromptArray(strings);
      assert arr[..n] == PromptArray(strings[..n]);
      assert strings == strings[..n] + [strings[n]];
    }
  }

  /** The parameters of UI.SetGlobalProperties for the flags `f`. */
  function UiParamsOf(f: Flags, vrHelp: Option<Payload>, appId: Uint32): UiParams {
    UiParams(if f.vrHelpTitle || f.vrHelpItems then vrHelp else None,
             if f.menuName then Some("") else None,
             if f.keyboardProperties then Some(DefaultKeyboardProperties) else None,
             appId)
  }

  /**
   * The HMI requests Run sends for the flags `f`, given CreateAppVrHelp's
   * result and the application's prompts after the reset.
   */
  function Requests(f: Flags, vrHelp: Option<Payload>, appId: Uint32,
                    helpPrompt: Option<seq<PromptItem>>, timeoutPrompt: Option<seq<PromptItem>>): seq<HmiMessage>
  {
    if Aborted(f, vrHelp) then []
    else
      var n := ChainingCounter(f);
      (if UiLeg(f) then [HmiMessage(UI_SetGlobalProperties, UiRequest(UiParamsOf(f, vrHelp, appId)), true, Some(n))] else [])
      + (if TtsLeg(f) then
           [HmiMessage(TTS_SetGlobalProperties,
                       TtsRequest(TtsParams(if f.helpPrompt then helpPrompt else None,
                                            if f.timeoutPrompt then timeoutPrompt else None, appId)),
                       true, if n == 1 then Some(n) else None)]
         else [])
  }

  /**
   * Unless Run aborts, it sends exactly chaining_counter requests, the first
   * of them announcing that number and the others passing no counter; the UI
   * request comes first and the TTS request last.
   */
  lemma ChainAnnounced(f: Flags, vrHelp: Option<Payload>, appId: Uint32,
                       helpPrompt: Option<seq<PromptItem>>, timeoutPrompt: Option<seq<PromptItem>>)
    requires !Aborted(f, vrHelp)
    ensures var rs := Requests(f, vrHelp, appId, helpPrompt, timeoutPrompt);
            && |rs| == ChainingCounter(f) <= 2
            && (|rs| > 0 ==> rs[0].chainingCounter == Some(|rs|))
            && (forall i :: 0 < i < |rs| ==> rs[i].chainingCounter.None?)
            && (forall i :: 0 <= i < |rs| ==> rs[i].useEvents && rs[i].params.UiRequest? == (rs[i].functionId == UI_SetGlobalProperties))
            && (UiLeg(f) <==> exists i :: 0 <= i < |rs| && rs[i].functionId == UI_SetGlobalProperties)
            && (TtsLeg(f) <==> |rs| > 0 && rs[|rs| - 1].functionId == TTS_SetGlobalProperties)
  {
    var rs := Requests(f, vrHelp, appId, helpPrompt, timeoutPrompt);
    if UiLeg(f) {
      assert rs[0].functionId == UI_SetGlobalProperties;
    }
  }

  /** An aborted Run sends nothing although it announced a UI leg. */
  lemma AbortSendsNothing(f: Flags, vrHelp: Option<Payload>, appId: Uint32,
                          helpPrompt: Option<seq<PromptItem>>, timeoutPrompt: Option<seq<PromptItem>>)
    requires Aborted(f, vrHelp)
    ensures Requests(f, vrHelp, appId, helpPrompt, timeoutPrompt) == [] && ChainingCounter(f) >= 1
  {
  }

  /** What UI.SetGlobalProperties carries for each reset property. */
  lemma UiContents(props: seq<GlobalProperty>, vrHelp: Option<Payload>, appId: Uint32,
                   helpPrompt: Option<seq<PromptItem>>, timeoutPrompt: Option<seq<PromptItem>>)
    requires var f := FlagsOf(props); UiLeg(f) && !Aborted(f, vrHelp)
    ensures var rs := Requests(FlagsOf(props), vrHelp, appId, helpPrompt, timeoutPrompt);
            && |rs| > 0 && rs[0].params.UiRequest?
            && var ui := rs[0].params.ui;
            && ui.appId == appId
            && (ui.vrHelp.Some? <==> VRHELPTITLE in props || VRHELPITEMS in props)
            && (ui.vrHelp.Some? ==> ui.vrHelp == vrHelp)
            && (ui.menuTitle.Some? <==> MENUNAME in props)
            && (ui.menuTitle.Some? ==> ui.menuTitle.value == "")
            && (ui.keyboardProperties.Some? <==> KEYBOARDPROPERTIES in props)
            && (ui.keyboardProperties.Some? ==> ui.keyboardProperties.value == KeyboardProperties(EN_US, QWERTY, false, [""], ""))
  {
    FlagsOfMembership(props);
  }

  /** What TTS.SetGlobalProperties carries. */
  lemma TtsContents(props: seq<GlobalProperty>, vrHelp: Option<Payload>, appId: Uint32,
                    helpPrompt: Option<seq<PromptItem>>, timeoutPrompt: Option<seq<PromptItem>>)
    requires var f := FlagsOf(props); TtsLeg(f) && !Aborted(f, vrHelp)
    ensures var rs := Requests(FlagsOf(props), vrHelp, appId, helpPrompt, timeoutPrompt);
            && |rs| > 0 && rs[|rs| - 1].params.TtsRequest?
            && var tts := rs[|rs| - 1].params.tts;
            && tts.appId == appId
            && tts.helpPrompt == (if HELPPROMT in props then helpPrompt else None)
            && tts.timeoutPrompt == (if TIMEOUTPROMT in props then timeoutPrompt else None)
  {
    FlagsOfMembership(props);
  }

  class ResetGlobalPropertiesRequest {
    /** params.connection_key of the request, which is also the application id */
    const connectionKey: Uint32
    /** msg_params.properties */
    const properties: seq<GlobalProperty>
    /** the responses sent to mobile, in order */
    var responses: seq<Response>
    /** the HMI requests created, in order */
    var hmiRequests: seq<HmiMessage>

    constructor (connectionKey: Uint32, properties: seq<GlobalProperty>)
      ensures this.connectionKey == connectionKey && this.properties == properties
      ensures responses == [] && hmiRequests == []
    {
      this.connectionKey := connectionKey;
      this.properties := properties;
      responses := [];
      hmiRequests := [];
    }

    method SendResponse(success: bool, resultCode: ResultCode)
      modifies this`responses
      ensures responses == old(responses) + [Response(success, resultCode)]
    {
      responses := responses + [Response(success, resultCode)];
    }

    method CreateHMIRequest(functionId: FunctionId, params: Params, useEvents: bool, chainingCounter: Option<nat>)
      modifies this`hmiRequests
      ensures hmiRequests == old(hmiRequests) + [HmiMessage(functionId, params, useEvents, chainingCounter)]
    {
      hmiRequests := hmiRequests + [HmiMessage(functionId, params, useEvents, chainingCounter)];
    }

    /** The loop of ResetHelpPromt and ResetTimeoutPromt that builds the prompt array. */
    static method BuildPromptArray(strings: seq<string>) returns (arr: seq<PromptItem>)
      ensures arr == PromptArray(strings)
    {
      arr := [];
      var i := 0;
      while i < |strings|
        invariant 0 <= i <= |strings|
        invariant arr == PromptArray(strings[..i])
      {
        assert strings[..i + 1][..i] == strings[..i];
        arr := arr + [PromptItem(strings[i])];
        i := i + 1;
      }
      assert strings[..i] == strings;
    }

    method ResetHelpPromt(app: Application?, helpPromptStrings: seq<string>) returns (ok: bool)
      modifies this`responses, (if app == null then {} else {app})`helpPrompt
      ensures ok == (app != null)
      ensures app == null ==> responses == old(responses) + [Response(false, APPLICATION_NOT_REGISTERED)]
      ensures app != null ==> responses == old(responses) && app.helpPrompt == Some(PromptArray(helpPromptStrings))
    {
      if app == null {
        SendResponse(false, APPLICATION_NOT_REGISTERED);
        return false;
      }
      var arr := BuildPromptArray(helpPromptStrings);
      app.helpPrompt := Some(arr);
      ok := true;
    }

    method ResetTimeoutPromt(app: Application?, timeoutPromptStrings: seq<string>) returns (ok: bool)
      modifies this`responses, (if app == null then {} else {app})`timeoutPrompt
      ensures ok == (app != null)
      ensures app == null ==> responses == old(responses) + [Response(false, APPLICATION_NOT_REGISTERED)]
      ensures app != null ==> responses == old(responses) && app.timeoutPrompt == Some(PromptArray(timeoutPromptStrings))
    {
      if app == null {
        SendResponse(false, APPLICATION_NOT_REGISTERED);
        return false;
      }
      var arr := BuildPromptArray(timeoutPromptStrings);
      app.timeoutPrompt := Some(arr);
      ok := true;
    }

    method ResetVrHelpTitle(app: Application?) returns (ok: bool)
      modifies this`responses, (if app == null then {} else {app})`vrHelpTitle
      ensures ok == (app != null)
      ensures app == null ==> responses == old(responses) + [Response(false, APPLICATION_NOT_REGISTERED)]
      ensures app != null ==> responses == old(responses) && app.vrHelpTitle.None?
    {
      if app == null {
        SendResponse(false, APPLICATION_NOT_REGISTERED);
        return false;
      }
      app.vrHelpTitle := None;
      ok := true;
    }

    method ResetVrHelpItems(app: Application?) returns (ok: bool)
      modifies this`responses, (if app == null then {} else {app})`vrHelp
      ensures ok == (app != null)
      ensures app == null ==> responses == old(responses) + [Response(false, APPLICATION_NOT_REGISTERED)]
      ensures app != null ==> responses == old(responses) && app.vrHelp.None?
    {
      if app == null {
        SendResponse(false, APPLICATION_NOT_REGISTERED);
        return false;
      }
      app.vrHelp := None;
      ok := true;
    }

    /**
     * Run, with the profile's help and timeout prompt strings and the result
     * of CreateAppVrHelp (None for NULL) as parameters.
     */
    method Run(mgr: ApplicationManagerImpl, helpPromptStrings: seq<string>, timeoutPromptStrings: seq<string>,
               vrHelp: Option<Payload>)
      modifies this`responses, this`hmiRequests
      modifies if ToInt32(connectionKey) in mgr.applications then {mgr.applications[ToInt32(connectionKey)]} else {}
      ensures ToInt32(connectionKey) !in mgr.applications ==>
                && responses == old(responses) + [Response(false, APPLICATION_NOT_REGISTERED)]
                && hmiRequests == old(hmiRequests)
      ensures ToInt32(connectionKey) in mgr.applications ==>
                var app := mgr.applications[ToInt32(connectionKey)];
                var f := FlagsOf(properties);
                && responses == old(responses)
                && app.resetGlobalPropertiesActive
                && app.helpPrompt == (if f.helpPrompt then Some(PromptArray(helpPromptStrings)) else old(app.helpPrompt))
                && app.timeoutPrompt == (if f.timeoutPrompt then Some(PromptArray(timeoutPromptStrings)) else old(app.timeoutPrompt))
                && app.vrHelpTitle == (if f.vrHelpTitle then None else old(app.vrHelpTitle))
                && app.vrHelp == (if f.vrHelpItems then None else old(app.vrHelp))
                && app.systemContext == old(app.systemContext)
                && app.audioStreamingState == old(app.audioStreamingState)
                && app.performInteractionActive == old(app.performInteractionActive)
                && hmiRequests == old(hmiRequests) + Requests(f, vrHelp, app.appId, app.helpPrompt, app.timeoutPrompt)
    {
      var app := mgr.ApplicationById(ToInt32(connectionKey));
      if app == null {
        SendResponse(false, APPLICATION_NOT_REGISTERED);
        return;
      }
      var f := ResetProperties(app, helpPromptStrings, timeoutPromptStrings);
      app.resetGlobalPropertiesActive := true;
      SendRequests(app, f, vrHelp);
    }

    /** The loop of Run over the property codes, with the flags it raises. */
    method ResetProperties(app: Application, helpPromptStrings: seq<string>, timeoutPromptStrings: seq<string>)
      returns (f: Flags)
      modifies this`responses, app`helpPrompt, app`timeoutPrompt, app`vrHelpTitle, app`vrHelp
      ensures f == FlagsOf(properties) && responses == old(responses)
      ensures app.helpPrompt == (if f.helpPrompt then Some(PromptArray(helpPromptStrings)) else old(app.helpPrompt))
      ensures app.timeoutPrompt == (if f.timeoutPrompt then Some(PromptArray(timeoutPromptStrings)) else old(app.timeoutPrompt))
      ensures app.vrHelpTitle == (if f.vrHelpTitle then None else old(app.vrHelpTitle))
      ensures app.vrHelp == (if f.vrHelpItems then None else old(app.vrHelp))
    {
      f := NoFlags;
      var i := 0;
      while i < |properties|
        invariant 0 <= i <= |properties|
        invariant f == FlagsOf(properties[..i]) && responses == old(responses)
        invariant app.helpPrompt == (if f.helpPrompt then Some(PromptArray(helpPromptStrings)) else old(app.helpPrompt))
        invariant app.timeoutPrompt == (if f.timeoutPrompt then Some(PromptArray(timeoutPromptStrings)) else old(app.timeoutPrompt))
        invariant app.vrHelpTitle == (if f.vrHelpTitle then None else old(app.vrHelpTitle))
        invariant app.vrHelp == (if f.vrHelpItems then None else old(app.vrHelp))
      {
        FlagsOfStep(properties, i);
        MarkFields(f, properties[i]);
        f := ResetProperty(app, properties[i], f, helpPromptStrings, timeoutPromptStrings);
        i := i + 1;
      }
      assert properties[..i] == properties;
    }

    /** One turn of the switch of Run. */
    method ResetProperty(app: Application, p: GlobalProperty, f: Flags,
                         helpPromptStrings: seq<string>, timeoutPromptStrings: seq<string>) returns (f': Flags)
      modifies this`responses, app`helpPrompt, app`timeoutPrompt, app`vrHelpTitle, app`vrHelp
      ensures f' == Mark(f, p) && responses == old(responses)
      ensures app.helpPrompt == (if p == HELPPROMT then Some(PromptArray(helpPromptStrings)) else old(app.helpPrompt))
      ensures app.timeoutPrompt == (if p == TIMEOUTPROMT then Some(PromptArray(timeoutPromptStrings)) else old(app.timeoutPrompt))
      ensures app.vrHelpTitle == (if p == VRHELPTITLE then None else old(app.vrHelpTitle))
      ensures app.vrHelp == (if p == VRHELPITEMS then None else old(app.vrHelp))
    {
      f' := f;
      match p {
        case HELPPROMT =>
          var ok := ResetHelpPromt(app, helpPromptStrings);
          f' := f.(helpPrompt := ok);
        case TIMEOUTPROMT =>
          var ok := ResetTimeoutPromt(app, timeoutPromptStrings);
          f' := f.(timeoutPrompt := ok);
        case VRHELPTITLE =>
          var ok := ResetVrHelpTitle(app);
          f' := f.(vrHelpTitle := ok);
        case VRHELPITEMS =>
          var ok := ResetVrHelpItems(app);
          f' := f.(vrHelpItems := ok);
        case MENUNAME => f' := f.(menuName := true);
        case MENUICON => f' := f.(menuIcon := true);
        case KEYBOARDPROPERTIES => f' := f.(keyboardProperties := true);
        case Unknown(_) =>
      }
    }

    /** The part of Run after the loop: chaining_counter and the HMI requests. */
    method SendRequests(app: Application, f: Flags, vrHelp: Option<Payload>)
      modifies this`hmiRequests
      ensures hmiRequests == old(hmiRequests) + Requests(f, vrHelp, app.appId, app.helpPrompt, app.timeoutPrompt)
    {
      var chainingCounter: nat := 0;
      if f.vrHelpTitle || f.vrHelpItems || f.menuName || f.menuIcon || f.keyboardProperties {
        chainingCounter := chainingCounter + 1;
      }
      if f.timeoutPrompt || f.helpPrompt {
        chainingCounter := chainingCounter + 1;
      }

      if f.vrHelpTitle || f.vrHelpItems || f.menuName || f.menuIcon || f.keyboardProperties {
        var uiVrHelp: Option<Payload> := None;
        if f.vrHelpTitle || f.vrHelpItems {
          if vrHelp.None? {
            return;
          }
          uiVrHelp := vrHelp;
        }
        var menuTitle: Option<string> := None;
        if f.menuName {
          menuTitle := Some("");
        }
        var keyboard: Option<KeyboardProperties> := None;
        if f.keyboardProperties {
          keyboard := Some(KeyboardProperties(EN_US, QWERTY, false, [""], ""));
        }
        CreateHMIRequest(UI_SetGlobalProperties, UiRequest(UiParams(uiVrHelp, menuTitle, keyboard, app.appId)),
                         true, Some(chainingCounter));
      }

      if f.timeoutPrompt || f.helpPrompt {
        var help: Option<seq<PromptItem>> := None;
        if f.helpPrompt {
          help := app.helpPrompt;
        }
        var timeout: Option<seq<PromptItem>> := None;
        if f.timeoutPrompt {
          timeout := app.timeoutPrompt;
        }
        var params := TtsRequest(TtsParams(help, timeout, app.appId));
        if 1 == chainingCounter {
          CreateHMIRequest(TTS_SetGlobalProperties, params, true, Some(chainingCounter));
        } else {
          CreateHMIRequest(TTS_SetGlobalProperties, params, true, None);
        }
      }
    }
  }
}
