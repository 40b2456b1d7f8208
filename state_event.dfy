/** The broadcast event sent after every mutation
    (app/Events/PresentationStateUpdated.php). */
module StateEvent {
  import opened Wrappers
  import Decimal
  import opened Wire
  import opened PresentationState

  /** The event name; clients listen for it with a leading dot. */
  const EventName: string := "state.updated"

  /** The one public channel of a week. */
  function ChannelName(weekId: nat): string {
    "presentation." + Decimal.NatToString(weekId)
  }

  /** Different weeks broadcast on different channels. */
  lemma ChannelNameInjective(w: nat, w': nat)
    requires ChannelName(w) == ChannelName(w')
    ensures w == w'
  {
    var p := "presentation.";
    assert Decimal.NatToString(w) == ChannelName(w)[|p|..];
    assert Decimal.NatToString(w') == ChannelName(w')[|p|..];
    Decimal.NatToStringInjective(w, w');
  }

  /** The payload sent to listeners: the action label and the full snapshot. */
  datatype Payload = Payload(action: string, state: ViewState)

  /** An event built from the saved record and the action that produced it. */
  datatype StateUpdated = StateUpdated(state: Record, action: string) {

    /** `broadcastOn`: exactly the week's channel. */
    function BroadcastOn(): (channels: seq<string>)
      ensures |channels| == 1 && channels[0] == ChannelName(state.weekId)
    {
      [ChannelName(state.weekId)]
    }

    /** `broadcastAs`: the same name for every action. */
    function BroadcastAs(): (name: string)
      ensures name == EventName
    {
      EventName
    }

    /** `broadcastWith`: the action and all five public fields of the record. */
    function BroadcastWith(): (p: Payload)
      ensures p.action == action
      ensures p.state.sectionIndex == state.sectionIndex && p.state.contentIndex == state.contentIndex
      ensures p.state.expandedScriptures == state.expandedScriptures
      ensures p.state.highlightedQuestionIndex == state.highlightedQuestionIndex
      ensures p.state.isActive == state.isActive
    {
      Payload(action, ViewOf(state))
    }
  }

  /** The constructor: the action defaults to "update". */
  function NewStateUpdated(state: Record, action: Option<string>): (e: StateUpdated)
    ensures e.state == state
    ensures e.action == if action.Some? then action.value else "update"
  {
    StateUpdated(state, action.GetOr("update"))
  }
}
