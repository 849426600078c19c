/**
 * The parts of an application (ApplicationImpl) that the modelled handlers
 * read and update through its setters; the setters are plain field writes.
 */
module Applications {
  import opened Common

  /** mobile_api::SystemContext */
  datatype SystemContext = SYSCTXT_MAIN | SYSCTXT_VRSESSION | SYSCTXT_MENU | SYSCTXT_HMI_OBSCURED | SYSCTXT_ALERT

  /** mobile_api::AudioStreamingState */
  datatype AudioStreamingState = AUDIBLE | ATTENUATED | NOT_AUDIBLE

  /** One element of a TTS prompt array: a map holding its `text`. */
  datatype PromptItem = PromptItem(text: string)

  class Application {
    const appId: Uint32
    const isMedia: bool
    var systemContext: SystemContext
    var audioStreamingState: AudioStreamingState
    /** is_perform_interaction_active(): 0 when no PerformInteraction is running */
    var performInteractionActive: Uint32
    var helpPrompt: Option<seq<PromptItem>>
    var timeoutPrompt: Option<seq<PromptItem>>
    var vrHelpTitle: Option<string>
    var vrHelp: Option<seq<string>>
    var resetGlobalPropertiesActive: bool

    constructor (appId: Uint32, isMedia: bool, systemContext: SystemContext, audioStreamingState: AudioStreamingState)
      ensures this.appId == appId && this.isMedia == isMedia
      ensures this.systemContext == systemContext && this.audioStreamingState == audioStreamingState
      ensures performInteractionActive == 0 && !resetGlobalPropertiesActive
      ensures helpPrompt.None? && timeoutPrompt.None? && vrHelpTitle.None? && vrHelp.None?
    {
      this.appId := appId;
      this.isMedia := isMedia;
      this.systemContext := systemContext;
      this.audioStreamingState := audioStreamingState;
      performInteractionActive := 0;
      helpPrompt := None;
      timeoutPrompt := None;
      vrHelpTitle := None;
      vrHelp := None;
      resetGlobalPropertiesActive := false;
    }
  }
}
