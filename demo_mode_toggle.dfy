/** The safety and demo-mode panel: its two handlers each build the next
    settings record from the current one and hand it to `onSettingsChange`. */
module DemoMode {
  import opened Schemas

  datatype DemoModeSettings = DemoModeSettings(
    enabled: bool,
    externalActionsDisabled: bool,
    mockExternalCalls: bool,
    safetyMessage: Option<string>)

  const DemoEnabledMessage: string := "Demo mode enabled - external actions will be simulated"
  const ExternalDisabledMessage: string := "External actions disabled for safety"
  const ExternalEnabledMessage: string := "External actions enabled"

  /** `handleToggle`: the record passed to `onSettingsChange`. */
  function HandleToggle(settings: DemoModeSettings): (r: DemoModeSettings)
    ensures r.enabled == !settings.enabled
    // enabling demo mode leaves the external-action switches as they were
    ensures r.externalActionsDisabled == settings.externalActionsDisabled
    ensures r.mockExternalCalls == settings.mockExternalCalls
    ensures r.safetyMessage.Some? <==> r.enabled
    ensures r.enabled ==> r.safetyMessage == Some(DemoEnabledMessage)
  {
    settings.(enabled := !settings.enabled,
              safetyMessage := if !settings.enabled then Some(DemoEnabledMessage) else None)
  }

  /** `handleExternalActionsToggle`: the record passed to `onSettingsChange`. */
  function HandleExternalActionsToggle(settings: DemoModeSettings): (r: DemoModeSettings)
    ensures r.externalActionsDisabled == !settings.externalActionsDisabled
    ensures r.enabled == settings.enabled && r.mockExternalCalls == settings.mockExternalCalls
    // the message always describes the new switch position
    ensures r.safetyMessage == Some(if r.externalActionsDisabled then ExternalDisabledMessage
                                    else ExternalEnabledMessage)
  {
    settings.(externalActionsDisabled := !settings.externalActionsDisabled,
              safetyMessage := if !settings.externalActionsDisabled then Some(ExternalDisabledMessage)
                               else Some(ExternalEnabledMessage))
  }

  /** The message `handleToggle` leaves for demo mode in position `enabled`. */
  function ToggleMessage(enabled: bool): Option<string> {
    if enabled then Some(DemoEnabledMessage) else None
  }

  function ExternalMessage(disabled: bool): Option<string> {
    Some(if disabled then ExternalDisabledMessage else ExternalEnabledMessage)
  }

  /** Toggling demo mode twice restores every switch; only the message is
      replaced by the one for the original position. */
  lemma ToggleTwice(settings: DemoModeSettings)
    ensures HandleToggle(HandleToggle(settings)) == settings.(safetyMessage := ToggleMessage(settings.enabled))
  {
  }

  /** Toggling external actions twice restores every switch; the message is
      the one for the original position. */
  lemma ExternalActionsToggleTwice(settings: DemoModeSettings)
    ensures HandleExternalActionsToggle(HandleExternalActionsToggle(settings))
         == settings.(safetyMessage := ExternalMessage(settings.externalActionsDisabled))
  {
  }

  /** The two handlers act on different switches: in either order they give
      the same switches, and the message is the last handler's. */
  lemma HandlersCommuteOnSwitches(settings: DemoModeSettings)
    ensures var a := HandleExternalActionsToggle(HandleToggle(settings));
            var b := HandleToggle(HandleExternalActionsToggle(settings));
      && a.(safetyMessage := None) == b.(safetyMessage := None)
      && a.safetyMessage == ExternalMessage(!settings.externalActionsDisabled)
      && b.safetyMessage == ToggleMessage(!settings.enabled)
  {
  }
}
