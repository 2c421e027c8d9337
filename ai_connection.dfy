/**
 * The connection-status provider of src/contexts/AIContext.tsx:19-56: four state fields set in
 * sequence by the mount effect and by `testConnection`.
 *
 * `testConnection` awaits the probe, so it runs in two steps: BeginTestConnection up to the
 * await, FinishTestConnection with the probe's outcome after it. Whether an API key is present is
 * a parameter of the mount step.
 */
module AIConnection {
  import opened Wrappers
  import opened ErrorHandler

  const NotConfiguredMessage := "OpenAI API key is not configured. Please add VITE_OPENAI_API_KEY to your .env file."
  const NotConnectedMessage := "Failed to connect to OpenAI API. Please check your API key."
  const ConnectFailedMessage := "Failed to connect to OpenAI API"

  /** How `openAIService.testConnection()` settles. */
  datatype Probe = Connected | NotConnected | ProbeThrew(reason: Thrown)

  class AIProvider {
    var isConfigured: bool
    var isConnected: bool
    var isLoading: bool
    var error: Option<string>

    /** A live connection carries no error, and neither does a test in progress. */
    ghost predicate Valid()
      reads this
    {
      && (isConnected ==> error.None?)
      && (isLoading ==> error.None?)
    }

    /** The first render: not configured, not connected, loading, no error. */
    constructor()
      ensures !isConfigured && !isConnected && isLoading && error.None?
      ensures Valid()
    {
      isConfigured, isConnected, isLoading, error := false, false, true, None;
    }

    /** testConnection up to the await: loading, and the error cleared. */
    method BeginTestConnection()
      modifies this
      ensures isLoading && error.None?
      ensures isConfigured == old(isConfigured) && isConnected == old(isConnected)
      ensures Valid()
    {
      isLoading := true;
      error := None;
    }

    /** testConnection after the await; the `finally` clause always ends the loading. */
    method FinishTestConnection(probe: Probe)
      modifies this
      ensures !isLoading
      ensures probe.Connected? ==> isConnected && error == old(error)
      ensures probe.NotConnected? ==> !isConnected && error == Some(NotConnectedMessage)
      ensures probe.ProbeThrew? ==> !isConnected && error == Some(MessageOr(probe.reason, ConnectFailedMessage))
      ensures isConfigured == old(isConfigured)
      ensures old(Valid()) && old(isLoading) ==> Valid()
    {
      match probe {
        case Connected =>
          isConnected := true;
        case NotConnected =>
          isConnected := false;
          error := Some(NotConnectedMessage);
        case ProbeThrew(reason) =>
          isConnected := false;
          error := Some(if IsError(reason) then reason.message else ConnectFailedMessage);
      }
      isLoading := false;
    }

    /** testConnection as one call: a connected result leaves no error, any other one an error. */
    method TestConnection(probe: Probe)
      modifies this
      ensures !isLoading
      ensures isConnected <==> probe.Connected?
      ensures probe.Connected? ==> error.None?
      ensures probe.NotConnected? ==> error == Some(NotConnectedMessage)
      ensures probe.ProbeThrew? ==> error == Some(MessageOr(probe.reason, ConnectFailedMessage))
      ensures isConfigured == old(isConfigured)
      ensures Valid()
    {
      BeginTestConnection();
      FinishTestConnection(probe);
    }

    /** The mount effect: record whether a key is present, then test the connection, or report the missing key. */
    method Mount(configured: bool, probe: Probe)
      modifies this
      ensures isConfigured == configured
      ensures !isLoading
      ensures configured ==> (isConnected <==> probe.Connected?)
      ensures configured && probe.Connected? ==> error.None?
      ensures configured && probe.NotConnected? ==> error == Some(NotConnectedMessage)
      ensures configured && probe.ProbeThrew? ==> error == Some(MessageOr(probe.reason, ConnectFailedMessage))
      ensures !configured ==> isConnected == old(isConnected) && error == Some(NotConfiguredMessage)
      ensures old(!isConnected) ==> Valid()
    {
      isConfigured := configured;
      if configured {
        TestConnection(probe);
      } else {
        isLoading := false;
        error := Some(NotConfiguredMessage);
      }
    }
  }

  /** A provider mounted for the first time. */
  method MountProvider(configured: bool, probe: Probe) returns (provider: AIProvider)
    ensures fresh(provider)
    ensures provider.isConfigured == configured && !provider.isLoading && provider.Valid()
    ensures !configured ==> !provider.isConnected && provider.error == Some(NotConfiguredMessage)
    ensures configured ==> (provider.isConnected <==> probe.Connected?)
  {
    provider := new AIProvider();
    provider.Mount(configured, probe);
  }
}
