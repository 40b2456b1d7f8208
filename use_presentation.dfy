/** The client's presentation hook (resources/js/hooks/use-presentation.ts): the local
    copy of the state, the connection status, and the four leader actions. */
module UsePresentation {
  import opened Wrappers
  import opened Wire
  import opened PresentationState
  import opened StateEvent
  import opened Controller
  import Decimal

  // ------------------------------------------------------- local state updates

  /** `{...prev, ...patch}`: the fields the patch carries replace the previous ones. */
  function Merge(prev: ViewState, patch: StatePatch): (next: ViewState)
    ensures next.sectionIndex == patch.sectionIndex.GetOr(prev.sectionIndex)
    ensures next.contentIndex == patch.contentIndex.GetOr(prev.contentIndex)
    ensures next.expandedScriptures == patch.expandedScriptures.GetOr(prev.expandedScriptures)
    ensures next.highlightedQuestionIndex == patch.highlightedQuestionIndex.GetOr(prev.highlightedQuestionIndex)
    ensures next.isActive == patch.isActive.GetOr(prev.isActive)
  {
    ViewState(patch.sectionIndex.GetOr(prev.sectionIndex),
              patch.contentIndex.GetOr(prev.contentIndex),
              patch.expandedScriptures.GetOr(prev.expandedScriptures),
              patch.highlightedQuestionIndex.GetOr(prev.highlightedQuestionIndex),
              patch.isActive.GetOr(prev.isActive))
  }

  /** What an action's `fetch` came back with: it threw, or the server answered. */
  datatype Reply = Threw | Replied(response: Response)

  /** The `state` object of a reply body, absent (spreading nothing) unless it has one. */
  function StateOf(response: Response): StatePatch {
    if response.StateSaved? then response.state else StatePatch(None, None, None, None, None)
  }

  /** `navigate`'s handling: a non-2xx status, a `success: false` body or a throw leave
      the state alone; a success merges the returned state over it. */
  function AfterNavigate(prev: ViewState, reply: Reply): (next: ViewState)
    ensures !(reply.Replied? && reply.response.Ok() && reply.response.Success()) ==> next == prev
    ensures reply.Replied? && reply.response.StateSaved? ==> next == Merge(prev, reply.response.state)
  {
    match reply
    case Threw => prev
    case Replied(response) =>
      if !response.Ok() then prev
      else if response.Success() then Merge(prev, StateOf(response))
      else prev
  }

  /** `goToItem`'s handling: any body without `success: true`, or a throw, leaves the
      state alone; a success merges the returned state over it. */
  function AfterGoTo(prev: ViewState, reply: Reply): (next: ViewState)
    ensures !(reply.Replied? && reply.response.Success()) ==> next == prev
    ensures reply.Replied? && reply.response.StateSaved? ==> next == Merge(prev, reply.response.state)
  {
    if reply.Replied? && reply.response.Success() then Merge(prev, StateOf(reply.response)) else prev
  }

  /** `toggleScripture`'s handling: a success replaces only `expandedScriptures`. */
  function AfterToggle(prev: ViewState, reply: Reply): (next: ViewState)
    ensures reply.Replied? && reply.response.ExpandedSaved? ==>
      next == prev.(expandedScriptures := reply.response.expandedScriptures)
    ensures !(reply.Replied? && reply.response.ExpandedSaved?) ==> next == prev
  {
    if reply.Replied? && reply.response.ExpandedSaved? then
      prev.(expandedScriptures := reply.response.expandedScriptures)
    else prev
  }

  /** `highlightQuestion`'s handling: a success replaces only the highlight. */
  function AfterHighlight(prev: ViewState, reply: Reply): (next: ViewState)
    ensures reply.Replied? && reply.response.HighlightSaved? ==>
      next == prev.(highlightedQuestionIndex := reply.response.highlightedQuestionIndex)
    ensures !(reply.Replied? && reply.response.HighlightSaved?) ==> next == prev
  {
    if reply.Replied? && reply.response.HighlightSaved? then
      prev.(highlightedQuestionIndex := reply.response.highlightedQuestionIndex)
    else prev
  }

  // ---------------------------------------------------------------- requests

  datatype Direction = Forward | Backward

  /** The JSON body a request carries. */
  datatype Body = NoBody | Indices(sectionIndex: int, contentIndex: int) | Question(questionIndex: Option<int>)

  /** A POST the hook sends. */
  datatype Request = Request(path: string, body: Body)

  /** `/weeks/{weekId}/presentation/{endpoint}`. */
  function EndpointPath(weekId: nat, endpoint: string): string {
    "/weeks/" + Decimal.NatToString(weekId) + "/presentation/" + endpoint
  }

  function DirectionName(direction: Direction): string {
    match direction
    case Forward => "next"
    case Backward => "previous"
  }

  /** Status text of the connection, as the message constants say. */
  const EchoMissing: string := "Echo not initialized (window.Echo is missing)"
  const ChannelFailed: string := "Channel error (see console)"

  // ---------------------------------------------------------------- the hook

  /** One mounted `usePresentation` for one week. */
  class PresentationHook {
    const weekId: nat
    const isController: bool
    var state: ViewState
    var isConnected: bool
    var connectionIssue: Option<string>
    /** `channelRef`: the channel subscribed, if any. */
    var channel: Option<string>

    /** The connection status never claims a connection with an issue pending, and the
        only channel ever subscribed is the week's. */
    ghost predicate Valid()
      reads this
    {
      && (isConnected ==> connectionIssue == None)
      && (channel.Some? ==> channel.value == ChannelName(weekId))
    }

    constructor (weekId: nat, initialState: ViewState, isController: bool)
      ensures Valid()
      ensures this.weekId == weekId && this.isController == isController
      ensures state == initialState && !isConnected && connectionIssue == None && channel == None
    {
      this.weekId := weekId;
      this.isController := isController;
      state := initialState;
      isConnected := false;
      connectionIssue := None;
      channel := None;
    }

    /** The subscription effect: without Echo it reports the missing client and
        subscribes to nothing; otherwise it clears the issue and subscribes to the week. */
    method Subscribe(echoAvailable: bool) returns (subscribed: Option<string>)
      requires Valid()
      modifies this
      ensures Valid() && state == old(state)
      ensures !echoAvailable ==>
        !isConnected && connectionIssue == Some(EchoMissing) && subscribed == None && channel == old(channel)
      ensures echoAvailable ==>
        isConnected == old(isConnected) && connectionIssue == None
        && subscribed == Some(ChannelName(weekId)) && channel == subscribed
    {
      if !echoAvailable {
        isConnected := false;
        connectionIssue := Some(EchoMissing);
        return None;
      }
      connectionIssue := None;
      subscribed := Some(ChannelName(weekId));
      channel := subscribed;
    }

    /** The `.state.updated` listener: the event's snapshot replaces the whole state. */
    method OnStateUpdated(event: Payload)
      requires Valid()
      modifies this
      ensures Valid() && state == event.state
      ensures isConnected == old(isConnected) && connectionIssue == old(connectionIssue) && channel == old(channel)
    {
      state := event.state;
    }

    /** The `subscribed` callback. */
    method OnSubscribed()
      requires Valid()
      modifies this
      ensures Valid() && isConnected && connectionIssue == None
      ensures state == old(state) && channel == old(channel)
    {
      isConnected := true;
      connectionIssue := None;
    }

    /** The `error` callback. */
    method OnChannelError()
      requires Valid()
      modifies this
      ensures Valid() && !isConnected && connectionIssue == Some(ChannelFailed)
      ensures state == old(state) && channel == old(channel)
    {
      isConnected := false;
      connectionIssue := Some(ChannelFailed);
    }

    /** The effect's cleanup, registered only after a subscription: it leaves the
        channel that was subscribed. */
    method Teardown() returns (left: Option<string>)
      requires Valid()
      ensures left == channel
    {
      if channel.Some? {
        left := Some(ChannelName(weekId));
      } else {
        left := None;
      }
    }

    /** `navigate(direction)`; `reply` is what the server answers. */
    method Navigate(direction: Direction, reply: Reply) returns (sent: Option<Request>)
      requires Valid()
      modifies this
      ensures Valid()
      ensures !isController ==> sent == None && state == old(state)
      ensures isController ==>
        sent == Some(Request(EndpointPath(weekId, DirectionName(direction)), NoBody))
        && state == AfterNavigate(old(state), reply)
      ensures isConnected == old(isConnected) && connectionIssue == old(connectionIssue) && channel == old(channel)
    {
      if !isController {
        return None;
      }
      sent := Some(Request(EndpointPath(weekId, DirectionName(direction)), NoBody));
      if reply.Replied? && reply.response.Ok() && reply.response.Success() {
        state := Merge(state, StateOf(reply.response));
      }
    }

    /** `goToItem(s, c)`: posts the two indices to the state endpoint. */
    method GoToItem(sectionIndex: int, contentIndex: int, reply: Reply) returns (sent: Option<Request>)
      requires Valid()
      modifies this
      ensures Valid()
      ensures !isController ==> sent == None && state == old(state)
      ensures isController ==>
        sent == Some(Request(EndpointPath(weekId, "state"), Indices(sectionIndex, contentIndex)))
        && state == AfterGoTo(old(state), reply)
      ensures isConnected == old(isConnected) && connectionIssue == old(connectionIssue) && channel == old(channel)
    {
      if !isController {
        return None;
      }
      sent := Some(Request(EndpointPath(weekId, "state"), Indices(sectionIndex, contentIndex)));
      if reply.Replied? && reply.response.Success() {
        state := Merge(state, StateOf(reply.response));
      }
    }

    /** `toggleScripture(s, c)`. */
    method ToggleScripture(sectionIndex: int, contentIndex: int, reply: Reply) returns (sent: Option<Request>)
      requires Valid()
      modifies this
      ensures Valid()
      ensures !isController ==> sent == None && state == old(state)
      ensures isController ==>
        sent == Some(Request(EndpointPath(weekId, "toggle-scripture"), Indices(sectionIndex, contentIndex)))
        && state == AfterToggle(old(state), reply)
      ensures isConnected == old(isConnected) && connectionIssue == old(connectionIssue) && channel == old(channel)
    {
      if !isController {
        return None;
      }
      sent := Some(Request(EndpointPath(weekId, "toggle-scripture"), Indices(sectionIndex, contentIndex)));
      if reply.Replied? && reply.response.ExpandedSaved? {
        state := state.(expandedScriptures := reply.response.expandedScriptures);
      }
    }

    /** `highlightQuestion(q)`. */
    method HighlightQuestion(questionIndex: Option<int>, reply: Reply) returns (sent: Option<Request>)
      requires Valid()
      modifies this
      ensures Valid()
      ensures !isController ==> sent == None && state == old(state)
      ensures isController ==>
        sent == Some(Request(EndpointPath(weekId, "highlight-question"), Question(questionIndex)))
        && state == AfterHighlight(old(state), reply)
      ensures isConnected == old(isConnected) && connectionIssue == old(connectionIssue) && channel == old(channel)
    {
      if !isController {
        return None;
      }
      sent := Some(Request(EndpointPath(weekId, "highlight-question"), Question(questionIndex)));
      if reply.Replied? && reply.response.HighlightSaved? {
        state := state.(highlightedQuestionIndex := reply.response.highlightedQuestionIndex);
      }
    }
  }

  // -------------------------------------------------------------- properties

  /** A viewer that applies an event ends up with exactly the record's public fields. */
  lemma ViewerFollowsBroadcast(r: Record, action: Option<string>)
    ensures NewStateUpdated(r, action).BroadcastWith().state == ViewOf(r)
  {
  }

  /** A leader that was in step with the record stays in step after each successful
      action: the merged reply equals the new record's public fields, so the leader's
      screen and the viewers' screens agree. The `next`/`previous` reply omits
      `isActive`, which the leader keeps, and which those endpoints never change. */
  lemma LeaderStaysInStep(view: seq<Outline.Section>, before: Record, req: UpdateRequest, leader: nat, key: string,
                          q: Option<int>)
    requires Outline.HasContent(view)
    ensures NextCursor(view, before).Some? ==>
      AfterNavigate(ViewOf(before), Replied(StateSaved(NavPatch(NextCursor(view, before).value))))
        == ViewOf(NextCursor(view, before).value)
    ensures PreviousCursor(view, before).Some? ==>
      AfterNavigate(ViewOf(before), Replied(StateSaved(NavPatch(PreviousCursor(view, before).value))))
        == ViewOf(PreviousCursor(view, before).value)
    ensures var after := ApplyUpdate(before, req, leader);
      AfterGoTo(ViewOf(before), Replied(StateSaved(FullPatch(after)))) == ViewOf(after)
    ensures var after := before.(expandedScriptures := ToggleKey(before.expandedScriptures, key));
      AfterToggle(ViewOf(before), Replied(ExpandedSaved(after.expandedScriptures))) == ViewOf(after)
    ensures var after := before.(highlightedQuestionIndex := q);
      AfterHighlight(ViewOf(before), Replied(HighlightSaved(q))) == ViewOf(after)
  {
  }

  /** A full snapshot overwrites whatever the client held. */
  lemma MergeFullPatch(prev: ViewState, r: Record)
    ensures Merge(prev, FullPatch(r)) == ViewOf(r)
  {
  }

  /** Merging the same reply twice is merging it once. */
  lemma MergeIdempotent(prev: ViewState, patch: StatePatch)
    ensures Merge(Merge(prev, patch), patch) == Merge(prev, patch)
  {
  }
}
