/** The leader's presentation endpoints (app/Http/Controllers/PresentationController.php).
    The pure functions compute each transition of a record; the class holds the
    presentation_states table, keyed by week id, and runs each endpoint on it. */
module Controller {
  import opened Wrappers
  import opened Outline
  import opened Week
  import opened Wire
  import opened PresentationState
  import opened StateEvent
  import Seqs

  // ---------------------------------------------------------------- requests

  /** Who is calling: a guest, or a signed-in user with their id and leader flag. */
  datatype Caller = Guest | User(id: nat, isLeader: bool)

  /** `authorizeLeader`: only a signed-in leader passes; a guest never does. */
  predicate IsLeader(caller: Caller): (allowed: bool)
    ensures allowed ==> caller.User?
    ensures caller.User? ==> (allowed <==> caller.isLeader)
  {
    caller.User? && caller.isLeader
  }

  /** The body of an `updateState` request: each field may be absent, and a present
      `highlighted_question_index` may be null. */
  datatype UpdateRequest = UpdateRequest(
    sectionIndex: Option<int>,
    contentIndex: Option<int>,
    expandedScriptures: Option<seq<string>>,
    highlightedQuestionIndex: Option<Option<int>>,
    isActive: Option<bool>)

  /** The `updateState` rules: present indices are non-negative integers, a present
      highlight is null or a non-negative integer. */
  predicate ValidUpdate(req: UpdateRequest): (ok: bool)
    ensures req == UpdateRequest(None, None, None, None, None) ==> ok
    ensures req.highlightedQuestionIndex == Some(None) && req.sectionIndex == None && req.contentIndex == None ==> ok
    ensures ok ==> req.sectionIndex.GetOr(0) >= 0 && req.contentIndex.GetOr(0) >= 0
  {
    && (req.sectionIndex.Some? ==> req.sectionIndex.value >= 0)
    && (req.contentIndex.Some? ==> req.contentIndex.value >= 0)
    && (req.highlightedQuestionIndex.Some? && req.highlightedQuestionIndex.value.Some? ==>
          req.highlightedQuestionIndex.value.value >= 0)
  }

  /** The body of a `toggleScripture` request. */
  datatype ToggleRequest = ToggleRequest(sectionIndex: Option<int>, contentIndex: Option<int>)

  /** The `toggleScripture` rules: both indices required, non-negative. */
  predicate ValidToggle(req: ToggleRequest): (ok: bool)
    ensures req.sectionIndex.None? || req.contentIndex.None? ==> !ok
    ensures ok ==> req.sectionIndex.value >= 0 && req.contentIndex.value >= 0
  {
    req.sectionIndex.Some? && req.sectionIndex.value >= 0 &&
    req.contentIndex.Some? && req.contentIndex.value >= 0
  }

  /** The `highlightQuestion` rule: null, or a non-negative integer. */
  predicate ValidHighlight(questionIndex: Option<int>): (ok: bool)
    ensures questionIndex.None? ==> ok
    ensures ok <==> questionIndex.GetOr(0) >= 0
  {
    questionIndex.Some? ==> questionIndex.value >= 0
  }

  // --------------------------------------------------------------- responses

  /** What an endpoint answers. */
  datatype Response =
    | Forbidden                                            // 403 from authorizeLeader
    | NotFound                                             // 404 from firstOrFail
    | ValidationFailed                                     // 422 from validate
    | ServerError                                          // 500: a PHP error while computing
    | InvalidSection                                       // 200 {success: false}
    | StateSaved(state: StatePatch)                        // 200 {success: true, state}
    | ExpandedSaved(expandedScriptures: seq<string>)       // 200 {success: true, expandedScriptures}
    | HighlightSaved(highlightedQuestionIndex: Option<int>) // 200 {success: true, highlightedQuestionIndex}
  {
    /** The HTTP status is 2xx. */
    predicate Ok() {
      InvalidSection? || StateSaved? || ExpandedSaved? || HighlightSaved?
    }

    /** The JSON body has `success: true`. */
    predicate Success() {
      StateSaved? || ExpandedSaved? || HighlightSaved?
    }
  }

  /** The `state` of an updateState response: all five public fields of the saved
      record. */
  function FullPatch(r: Record): (p: StatePatch)
    ensures p.sectionIndex == Some(r.sectionIndex) && p.contentIndex == Some(r.contentIndex)
    ensures p.expandedScriptures == Some(r.expandedScriptures)
    ensures p.highlightedQuestionIndex == Some(r.highlightedQuestionIndex)
    ensures p.isActive == Some(r.isActive)
  {
    StatePatch(Some(r.sectionIndex), Some(r.contentIndex), Some(r.expandedScriptures),
               Some(r.highlightedQuestionIndex), Some(r.isActive))
  }

  /** The `state` of a next/previous response: the four cursor and display fields of the
      saved record, with no `isActive`. */
  function NavPatch(r: Record): (p: StatePatch)
    ensures p.sectionIndex == Some(r.sectionIndex) && p.contentIndex == Some(r.contentIndex)
    ensures p.expandedScriptures == Some(r.expandedScriptures)
    ensures p.highlightedQuestionIndex == Some(r.highlightedQuestionIndex)
    ensures p.isActive == None
    ensures p == FullPatch(r).(isActive := None)
  {
    StatePatch(Some(r.sectionIndex), Some(r.contentIndex), Some(r.expandedScriptures),
               Some(r.highlightedQuestionIndex), None)
  }

  /** A rendered page: refused, or the sections it shows and its initial state. */
  datatype Page = PageForbidden | Page(sections: Option<seq<Section>>, initialState: ViewState)

  // ------------------------------------------------------------- transitions

  /** `next` over a view: one item forward in the section, else to the start of the next
      section, else stay; the highlight is cleared in every case. No result when the
      section index names no section of the view. */
  function NextCursor(view: seq<Section>, r: Record): (res: Option<Record>)
    requires HasContent(view)
    ensures res.None? <==> !(0 <= r.sectionIndex < |view|)
    ensures res.Some? ==> res.value.highlightedQuestionIndex == None
    ensures res.Some? ==> res.value.(sectionIndex := r.sectionIndex, contentIndex := r.contentIndex,
                                     highlightedQuestionIndex := r.highlightedQuestionIndex) == r
    ensures res.Some? && r.contentIndex < |Items(view, r.sectionIndex)| - 1 ==>
      res.value.sectionIndex == r.sectionIndex && res.value.contentIndex == r.contentIndex + 1
    ensures res.Some? && r.contentIndex >= |Items(view, r.sectionIndex)| - 1 && r.sectionIndex < |view| - 1 ==>
      res.value.sectionIndex == r.sectionIndex + 1 && res.value.contentIndex == 0
    ensures res.Some? && r.contentIndex >= |Items(view, r.sectionIndex)| - 1 && r.sectionIndex == |view| - 1 ==>
      res.value.sectionIndex == r.sectionIndex && res.value.contentIndex == r.contentIndex
  {
    if !(0 <= r.sectionIndex < |view|) then None
    else
      var cleared := r.(highlightedQuestionIndex := None);
      if r.contentIndex < |Items(view, r.sectionIndex)| - 1 then
        Some(cleared.(contentIndex := r.contentIndex + 1))
      else if r.sectionIndex < |view| - 1 then
        Some(cleared.(sectionIndex := r.sectionIndex + 1, contentIndex := 0))
      else
        Some(cleared)
  }

  /** `previous` over a view: one item back, else to the last item of the previous
      section (index count - 1, which is -1 for an empty section), else stay; the
      highlight is cleared. No result when the previous section is missing from the
      view: PHP then fails on `count(null)` before anything is saved. */
  function PreviousCursor(view: seq<Section>, r: Record): (res: Option<Record>)
    requires HasContent(view)
    ensures res.None? <==> r.contentIndex <= 0 && r.sectionIndex > 0 && r.sectionIndex - 1 >= |view|
    ensures res.Some? ==> res.value.highlightedQuestionIndex == None
    ensures res.Some? ==> res.value.(sectionIndex := r.sectionIndex, contentIndex := r.contentIndex,
                                     highlightedQuestionIndex := r.highlightedQuestionIndex) == r
    ensures r.contentIndex > 0 ==>
      res.Some? && res.value.sectionIndex == r.sectionIndex && res.value.contentIndex == r.contentIndex - 1
    ensures res.Some? && r.contentIndex <= 0 && r.sectionIndex > 0 ==>
      res.value.sectionIndex == r.sectionIndex - 1
      && res.value.contentIndex == |Items(view, r.sectionIndex - 1)| - 1
    ensures r.contentIndex <= 0 && r.sectionIndex <= 0 ==>
      res.Some? && res.value.sectionIndex == r.sectionIndex && res.value.contentIndex == r.contentIndex
  {
    var cleared := r.(highlightedQuestionIndex := None);
    if r.contentIndex > 0 then
      Some(cleared.(contentIndex := r.contentIndex - 1))
    else if r.sectionIndex > 0 then
      var s := r.sectionIndex - 1;
      if s < |view| then Some(cleared.(sectionIndex := s, contentIndex := |Items(view, s)| - 1))
      else None
    else
      Some(cleared)
  }

  /** Keeps every entry other than `key`. */
  function Except(key: string): string -> bool {
    x => x != key
  }

  /** The `toggleScripture` list update: drop every copy of a present key (the rest
      keep their order), or append an absent one at the end. */
  function ToggleKey(list: seq<string>, key: string): (r: seq<string>)
    ensures key in r <==> key !in list
    ensures forall i :: 0 <= i < |list| && list[i] != key ==> list[i] in r
    ensures forall i :: 0 <= i < |r| && r[i] != key ==> r[i] in list
    ensures key in list ==> r == Seqs.Filter(Except(key), list)
    ensures key !in list ==> r == list + [key]
  {
    if key in list then Seqs.Filter(Except(key), list) else list + [key]
  }

  /** `$state->update($validated)` then `leader_id = Auth::id()`: exactly the supplied
      fields are overwritten; the highlight stays unless it is supplied. */
  function ApplyUpdate(r: Record, req: UpdateRequest, leader: nat): (res: Record)
    ensures res.weekId == r.weekId && res.leaderId == Some(leader)
    ensures res.sectionIndex == req.sectionIndex.GetOr(r.sectionIndex)
    ensures res.contentIndex == req.contentIndex.GetOr(r.contentIndex)
    ensures res.expandedScriptures == req.expandedScriptures.GetOr(r.expandedScriptures)
    ensures res.highlightedQuestionIndex == req.highlightedQuestionIndex.GetOr(r.highlightedQuestionIndex)
    ensures res.isActive == req.isActive.GetOr(r.isActive)
  {
    Record(r.weekId,
           req.sectionIndex.GetOr(r.sectionIndex),
           req.contentIndex.GetOr(r.contentIndex),
           req.expandedScriptures.GetOr(r.expandedScriptures),
           req.highlightedQuestionIndex.GetOr(r.highlightedQuestionIndex),
           req.isActive.GetOr(r.isActive),
           Some(leader))
  }

  // ------------------------------------------------------------ the endpoints

  /** The presentation_states table and the endpoints that change it. */
  class PresentationController {
    /** One record per week id: the table's unique key on week_id. */
    var states: map<nat, Record>

    ghost predicate Valid()
      reads this
    {
      forall w :: w in states ==> states[w].weekId == w
    }

    constructor ()
      ensures Valid() && states == map[]
    {
      states := map[];
    }

    /** `firstOrCreate(['week_id' => w], defaults)`: the existing row, or a new one. */
    method FirstOrCreate(weekId: nat, leaderId: Option<nat>) returns (r: Record)
      requires Valid()
      modifies this
      ensures Valid()
      ensures states == if weekId in old(states) then old(states)
                        else old(states)[weekId := Defaults(weekId, leaderId)]
      ensures r == states[weekId]
    {
      if weekId !in states {
        states := states[weekId := Defaults(weekId, leaderId)];
      }
      r := states[weekId];
    }

    /** `present`: public; creates the row without a leader, shows the participant view. */
    method Present(week: Week) returns (page: Page)
      requires Valid()
      modifies this
      ensures Valid()
      ensures states == if week.id in old(states) then old(states)
                        else old(states)[week.id := Defaults(week.id, None)]
      ensures page == Page(Some(ParticipantSections(week)), ViewOf(states[week.id]))
    {
      var state := FirstOrCreate(week.id, None);
      page := Page(Some(ParticipantSections(week)), ViewOf(state));
    }

    /** `control`: leaders only; creates the row with the leader, shows the full view. */
    method Control(caller: Caller, week: Week) returns (page: Page)
      requires Valid()
      modifies this
      ensures Valid()
      ensures !IsLeader(caller) ==> page == PageForbidden && states == old(states)
      ensures IsLeader(caller) ==>
        states == (if week.id in old(states) then old(states)
                   else old(states)[week.id := Defaults(week.id, Some(caller.id))])
        && page == Page(week.sections, ViewOf(states[week.id]))
    {
      if !IsLeader(caller) {
        return PageForbidden;
      }
      var state := FirstOrCreate(week.id, Some(caller.id));
      page := Page(week.sections, ViewOf(state));
    }

    /** `updateState`: leaders only; validates, creates the row if missing, overwrites
        the supplied fields, records the leader, saves and broadcasts "update". */
    method UpdateState(caller: Caller, week: Week, req: UpdateRequest)
      returns (response: Response, event: Option<StateUpdated>)
      requires Valid()
      modifies this
      ensures Valid()
      ensures !IsLeader(caller) ==> response == Forbidden && event == None && states == old(states)
      ensures IsLeader(caller) && !ValidUpdate(req) ==>
        response == ValidationFailed && event == None && states == old(states)
      ensures IsLeader(caller) && ValidUpdate(req) ==>
        var before := if week.id in old(states) then old(states)[week.id]
                      else Defaults(week.id, Some(caller.id));
        var after := ApplyUpdate(before, req, caller.id);
        states == old(states)[week.id := after]
        && response == StateSaved(FullPatch(after))
        && event == Some(NewStateUpdated(after, Some("update")))
    {
      if !IsLeader(caller) {
        return Forbidden, None;
      }
      if !ValidUpdate(req) {
        return ValidationFailed, None;
      }
      var state := FirstOrCreate(week.id, Some(caller.id));
      state := ApplyUpdate(state, req, caller.id);
      states := states[week.id := state];
      event := Some(NewStateUpdated(state, Some("update")));
      response := StateSaved(FullPatch(state));
    }

    /** `next`: leaders only; needs an existing row; walks the participant view. */
    method Next(caller: Caller, week: Week) returns (response: Response, event: Option<StateUpdated>)
      requires Valid()
      modifies this
      ensures Valid()
      ensures !IsLeader(caller) ==> response == Forbidden && event == None && states == old(states)
      ensures IsLeader(caller) && week.id !in old(states) ==>
        response == NotFound && event == None && states == old(states)
      ensures IsLeader(caller) && week.id in old(states) ==>
        match NextCursor(ParticipantSections(week), old(states)[week.id])
        case None => response == InvalidSection && event == None && states == old(states)
        case Some(after) =>
          states == old(states)[week.id := after]
          && response == StateSaved(NavPatch(after))
          && event == Some(NewStateUpdated(after, Some("next")))
    {
      if !IsLeader(caller) {
        return Forbidden, None;
      }
      if week.id !in states {
        return NotFound, None;
      }
      var state := states[week.id];
      var sections := ParticipantSections(week);
      if !(0 <= state.sectionIndex < |sections|) {
        return InvalidSection, None;
      }
      state := state.(highlightedQuestionIndex := None);
      if state.contentIndex < |sections[state.sectionIndex].content.value| - 1 {
        state := state.(contentIndex := state.contentIndex + 1);
      } else if state.sectionIndex < |sections| - 1 {
        state := state.(sectionIndex := state.sectionIndex + 1, contentIndex := 0);
      }
      states := states[week.id := state];
      event := Some(NewStateUpdated(state, Some("next")));
      response := StateSaved(NavPatch(state));
    }

    /** `previous`: leaders only; needs an existing row; walks the participant view. */
    method Previous(caller: Caller, week: Week) returns (response: Response, event: Option<StateUpdated>)
      requires Valid()
      modifies this
      ensures Valid()
      ensures !IsLeader(caller) ==> response == Forbidden && event == None && states == old(states)
      ensures IsLeader(caller) && week.id !in old(states) ==>
        response == NotFound && event == None && states == old(states)
      ensures IsLeader(caller) && week.id in old(states) ==>
        match PreviousCursor(ParticipantSections(week), old(states)[week.id])
        case None => response == ServerError && event == None && states == old(states)
        case Some(after) =>
          states == old(states)[week.id := after]
          && response == StateSaved(NavPatch(after))
          && event == Some(NewStateUpdated(after, Some("previous")))
    {
      if !IsLeader(caller) {
        return Forbidden, None;
      }
      if week.id !in states {
        return NotFound, None;
      }
      var state := states[week.id];
      var sections := ParticipantSections(week);
      state := state.(highlightedQuestionIndex := None);
      if state.contentIndex > 0 {
        state := state.(contentIndex := state.contentIndex - 1);
      } else if state.sectionIndex > 0 {
        state := state.(sectionIndex := state.sectionIndex - 1);
        if state.sectionIndex >= |sections| {
          return ServerError, None;
        }
        state := state.(contentIndex := |sections[state.sectionIndex].content.value| - 1);
      }
      states := states[week.id := state];
      event := Some(NewStateUpdated(state, Some("previous")));
      response := StateSaved(NavPatch(state));
    }

    /** `toggleScripture`: leaders only; validates, needs an existing row, flips "s-c". */
    method ToggleScripture(caller: Caller, week: Week, req: ToggleRequest)
      returns (response: Response, event: Option<StateUpdated>)
      requires Valid()
      modifies this
      ensures Valid()
      ensures !IsLeader(caller) ==> response == Forbidden && event == None && states == old(states)
      ensures IsLeader(caller) && !ValidToggle(req) ==>
        response == ValidationFailed && event == None && states == old(states)
      ensures IsLeader(caller) && ValidToggle(req) && week.id !in old(states) ==>
        response == NotFound && event == None && states == old(states)
      ensures IsLeader(caller) && ValidToggle(req) && week.id in old(states) ==>
        var before := old(states)[week.id];
        var key := ScriptureKey(req.sectionIndex.value, req.contentIndex.value);
        var after := before.(expandedScriptures := ToggleKey(before.expandedScriptures, key));
        states == old(states)[week.id := after]
        && response == ExpandedSaved(after.expandedScriptures)
        && event == Some(NewStateUpdated(after, Some("toggleScripture")))
    {
      if !IsLeader(caller) {
        return Forbidden, None;
      }
      if !ValidToggle(req) {
        return ValidationFailed, None;
      }
      if week.id !in states {
        return NotFound, None;
      }
      var state := states[week.id];
      var key := ScriptureKey(req.sectionIndex.value, req.contentIndex.value);
      var expanded := state.expandedScriptures;
      if key in expanded {
        expanded := Seqs.Filter(Except(key), expanded);
      } else {
        expanded := expanded + [key];
      }
      state := state.(expandedScriptures := expanded);
      states := states[week.id := state];
      event := Some(NewStateUpdated(state, Some("toggleScripture")));
      response := ExpandedSaved(state.expandedScriptures);
    }

    /** `highlightQuestion`: leaders only; validates, needs an existing row, sets the
        highlight as given (no check against the item's questions). */
    method HighlightQuestion(caller: Caller, week: Week, questionIndex: Option<int>)
      returns (response: Response, event: Option<StateUpdated>)
      requires Valid()
      modifies this
      ensures Valid()
      ensures !IsLeader(caller) ==> response == Forbidden && event == None && states == old(states)
      ensures IsLeader(caller) && !ValidHighlight(questionIndex) ==>
        response == ValidationFailed && event == None && states == old(states)
      ensures IsLeader(caller) && ValidHighlight(questionIndex) && week.id !in old(states) ==>
        response == NotFound && event == None && states == old(states)
      ensures IsLeader(caller) && ValidHighlight(questionIndex) && week.id in old(states) ==>
        var after := old(states)[week.id].(highlightedQuestionIndex := questionIndex);
        states == old(states)[week.id := after]
        && response == HighlightSaved(questionIndex)
        && event == Some(NewStateUpdated(after, Some("highlightQuestion")))
    {
      if !IsLeader(caller) {
        return Forbidden, None;
      }
      if !ValidHighlight(questionIndex) {
        return ValidationFailed, None;
      }
      if week.id !in states {
        return NotFound, None;
      }
      var state := states[week.id].(highlightedQuestionIndex := questionIndex);
      states := states[week.id := state];
      event := Some(NewStateUpdated(state, Some("highlightQuestion")));
      response := HighlightSaved(state.highlightedQuestionIndex);
    }
  }

  // -------------------------------------------------------------- properties

  /** Every section of the view has at least one item. */
  predicate NoEmptySections(view: seq<Section>)
    requires HasContent(view)
  {
    forall s: nat :: s < |view| ==> |Items(view, s)| > 0
  }

  /** The cursor names an item of the view. */
  predicate ValidCursor(view: seq<Section>, r: Record)
    requires HasContent(view)
  {
    0 <= r.sectionIndex < |view| && 0 <= r.contentIndex < |Items(view, r.sectionIndex)|
  }

  /** The number of items in the sections before `s`: the reference numbering of items
      in section-major order. */
  function ItemsBefore(view: seq<Section>, s: nat): nat
    requires HasContent(view) && s <= |view|
  {
    if s == 0 then 0 else ItemsBefore(view, s - 1) + |Items(view, s - 1)|
  }

  /** The position of a valid cursor in that numbering. */
  function Position(view: seq<Section>, r: Record): nat
    requires HasContent(view) && ValidCursor(view, r)
  {
    ItemsBefore(view, r.sectionIndex) + r.contentIndex
  }

  lemma {:induction false} ItemsBeforeMonotone(view: seq<Section>, s: nat, t: nat)
    requires HasContent(view) && s <= t <= |view|
    ensures ItemsBefore(view, s) <= ItemsBefore(view, t)
    decreases t - s
  {
    if s < t {
      ItemsBeforeMonotone(view, s + 1, t);
    }
  }

  /** Positions are in bounds and the cursor is recovered from its position: a valid
      cursor lies below the total item count. */
  lemma PositionBound(view: seq<Section>, r: Record)
    requires HasContent(view) && ValidCursor(view, r)
    ensures Position(view, r) < ItemsBefore(view, |view|)
  {
    ItemsBeforeMonotone(view, r.sectionIndex + 1, |view|);
  }

  /** With no empty section, `next` from a valid cursor is the successor in section-major
      order, and stays on the last item. */
  lemma NextIsSuccessor(view: seq<Section>, r: Record)
    requires HasContent(view) && NoEmptySections(view) && ValidCursor(view, r)
    ensures NextCursor(view, r).Some? && ValidCursor(view, NextCursor(view, r).value)
    ensures Position(view, r) < ItemsBefore(view, |view|) - 1 ==>
      Position(view, NextCursor(view, r).value) == Position(view, r) + 1
    ensures Position(view, r) == ItemsBefore(view, |view|) - 1 ==>
      NextCursor(view, r).value.sectionIndex == r.sectionIndex
      && NextCursor(view, r).value.contentIndex == r.contentIndex
  {
    var s: nat := r.sectionIndex;
    if r.contentIndex < |Items(view, s)| - 1 {
      NextWithinSection(view, r);
    } else if s < |view| - 1 {
      NextAcrossSections(view, r);
    } else {
      NextAtLastItem(view, r);
    }
  }

  /** The first case of NextIsSuccessor: one item further in the same section. */
  lemma NextWithinSection(view: seq<Section>, r: Record)
    requires HasContent(view) && ValidCursor(view, r)
    requires r.contentIndex < |Items(view, r.sectionIndex)| - 1
    ensures var n := NextCursor(view, r).value;
      ValidCursor(view, n) && Position(view, n) == Position(view, r) + 1
      && Position(view, r) < ItemsBefore(view, |view|) - 1
  {
    ItemsBeforeMonotone(view, r.sectionIndex + 1, |view|);
  }

  /** The last case of NextIsSuccessor: the last item of the last section stays put. */
  lemma NextAtLastItem(view: seq<Section>, r: Record)
    requires HasContent(view) && ValidCursor(view, r)
    requires r.contentIndex == |Items(view, r.sectionIndex)| - 1 && r.sectionIndex == |view| - 1
    ensures var n := NextCursor(view, r).value;
      ValidCursor(view, n) && n.sectionIndex == r.sectionIndex && n.contentIndex == r.contentIndex
      && Position(view, r) == ItemsBefore(view, |view|) - 1
  {
    assert ItemsBefore(view, |view|) == ItemsBefore(view, r.sectionIndex) + |Items(view, r.sectionIndex)|;
  }

  /** The middle case of NextIsSuccessor: from the last item of a section that is not the
      last one, to the first item of the next section. */
  lemma NextAcrossSections(view: seq<Section>, r: Record)
    requires HasContent(view) && NoEmptySections(view) && ValidCursor(view, r)
    requires r.contentIndex == |Items(view, r.sectionIndex)| - 1 && r.sectionIndex < |view| - 1
    ensures var n := NextCursor(view, r).value;
      ValidCursor(view, n) && Position(view, n) == Position(view, r) + 1
      && Position(view, r) < ItemsBefore(view, |view|) - 1
  {
    var s: nat := r.sectionIndex;
    assert |Items(view, s + 1)| > 0;
    assert ItemsBefore(view, s + 1) == ItemsBefore(view, s) + |Items(view, s)|;
    assert ItemsBefore(view, s + 2) == ItemsBefore(view, s + 1) + |Items(view, s + 1)|;
    ItemsBeforeMonotone(view, s + 2, |view|);
  }

  /** With no empty section, `previous` from a valid cursor is the predecessor in
      section-major order, and stays on the first item. */
  lemma PreviousIsPredecessor(view: seq<Section>, r: Record)
    requires HasContent(view) && NoEmptySections(view) && ValidCursor(view, r)
    ensures PreviousCursor(view, r).Some? && ValidCursor(view, PreviousCursor(view, r).value)
    ensures Position(view, r) > 0 ==>
      Position(view, PreviousCursor(view, r).value) == Position(view, r) - 1
    ensures Position(view, r) == 0 ==>
      PreviousCursor(view, r).value.sectionIndex == r.sectionIndex
      && PreviousCursor(view, r).value.contentIndex == r.contentIndex
  {
    var s := r.sectionIndex;
    if r.contentIndex == 0 && s > 0 {
      assert |Items(view, s - 1)| > 0;
      assert ItemsBefore(view, s) == ItemsBefore(view, s - 1) + |Items(view, s - 1)|;
    }
  }

  /** With no empty section, `previous` undoes a `next` that moved, and `next` undoes a
      `previous` that moved (up to the cleared highlight). */
  lemma NextPreviousInverse(view: seq<Section>, r: Record)
    requires HasContent(view) && NoEmptySections(view) && ValidCursor(view, r)
    ensures var n := NextCursor(view, r).value;
      (n.sectionIndex, n.contentIndex) != (r.sectionIndex, r.contentIndex) ==>
        PreviousCursor(view, n) == Some(r.(highlightedQuestionIndex := None))
    ensures var p := PreviousCursor(view, r).value;
      (p.sectionIndex, p.contentIndex) != (r.sectionIndex, r.contentIndex) ==>
        NextCursor(view, p) == Some(r.(highlightedQuestionIndex := None))
  {
    NextIsSuccessor(view, r);
    PreviousIsPredecessor(view, r);
    PositionBound(view, r);
    var n := NextCursor(view, r).value;
    var p := PreviousCursor(view, r).value;
    if (n.sectionIndex, n.contentIndex) != (r.sectionIndex, r.contentIndex) {
      PreviousIsPredecessor(view, n);
      PositionInjective(view, PreviousCursor(view, n).value, r);
    }
    if (p.sectionIndex, p.contentIndex) != (r.sectionIndex, r.contentIndex) {
      NextIsSuccessor(view, p);
      PositionInjective(view, NextCursor(view, p).value, r);
    }
  }

  /** Different valid cursors have different positions. */
  lemma PositionInjective(view: seq<Section>, a: Record, b: Record)
    requires HasContent(view) && ValidCursor(view, a) && ValidCursor(view, b)
    requires Position(view, a) == Position(view, b)
    ensures a.sectionIndex == b.sectionIndex && a.contentIndex == b.contentIndex
  {
    if a.sectionIndex < b.sectionIndex {
      ItemsBeforeMonotone(view, a.sectionIndex + 1, b.sectionIndex);
      assert false;
    } else if b.sectionIndex < a.sectionIndex {
      ItemsBeforeMonotone(view, b.sectionIndex + 1, a.sectionIndex);
      assert false;
    }
  }

  /** `previous` into a section with no participant items stores content index -1. */
  lemma PreviousIntoEmptySection()
    ensures var week := Week(7, Some([
                Section("Leaders", "i", Some([ContentItem(LeaderNote, Some("note"), None, None, None, None)])),
                Section("Open", "i", Some([ContentItem(Body, Some("hi"), None, None, None, None)]))]));
      var r := Record(7, 1, 0, [], None, true, Some(1));
      PreviousCursor(ParticipantSections(week), r) == Some(r.(sectionIndex := 0, contentIndex := -1))
  {
    var note := ContentItem(LeaderNote, Some("note"), None, None, None, None);
    var body := ContentItem(Body, Some("hi"), None, None, None, None);
    assert Seqs.Filter(ShownToParticipant, [note]) == [];
    assert Seqs.Filter(ShownToParticipant, [body]) == [body];
  }

  /** The cursor (0, 0) names a leader note in the full view, which `getCurrentContentItem`
      and the control center use, but a different item in the participant view that
      `next`, `previous` and the viewer use. */
  lemma IndicesDependOnView()
    ensures var note := ContentItem(LeaderNote, Some("note"), None, None, None, None);
      var body := ContentItem(Body, Some("hi"), None, None, None, None);
      var week := Week(3, Some([Section("Open", "i", Some([note, body]))]));
      var r := Defaults(3, None);
      GetCurrentContentItem(r, week).value.item == note
      && Items(ParticipantSections(week), 0)[0] == body
  {
    var note := ContentItem(LeaderNote, Some("note"), None, None, None, None);
    var body := ContentItem(Body, Some("hi"), None, None, None, None);
    assert Seqs.Filter(ShownToParticipant, [note, body]) == [body] by {
      assert [note, body][1..] == [body];
    }
  }

  /** A jump that does not mention the highlight keeps it, while `next` and `previous`
      from the same record clear it. */
  lemma JumpKeepsHighlight(view: seq<Section>, r: Record, req: UpdateRequest, leader: nat)
    requires HasContent(view) && 0 <= r.sectionIndex < |view|
    requires req.highlightedQuestionIndex == None && r.highlightedQuestionIndex.Some?
    ensures ApplyUpdate(r, req, leader).highlightedQuestionIndex == r.highlightedQuestionIndex
    ensures NextCursor(view, r).value.highlightedQuestionIndex == None
    ensures PreviousCursor(view, r).value.highlightedQuestionIndex == None
  {
  }

  /** Toggling the same key twice restores its membership; starting from an absent key
      it restores the list exactly. */
  lemma ToggleTwice(list: seq<string>, key: string)
    ensures key in ToggleKey(ToggleKey(list, key), key) <==> key in list
    ensures key !in list ==> ToggleKey(ToggleKey(list, key), key) == list
  {
    if key !in list {
      Seqs.FilterAppend(Except(key), list, [key]);
      Seqs.FilterKeepsAll(Except(key), list);
      assert Seqs.Filter(Except(key), [key]) == [] by {
        assert [key][1..] == [];
      }
    }
  }

  /** A toggle leaves the count of every other key unchanged. */
  lemma ToggleKeepsOthers(list: seq<string>, key: string, other: string)
    requires other != key
    ensures multiset(ToggleKey(list, key))[other] == multiset(list)[other]
  {
    if key in list {
      Seqs.FilterMultiplicity(Except(key), list, other);
    }
  }

  /** The keys `toggleScripture` writes are the ones `isScriptureExpanded` reads: the
      toggled item flips, every other item keeps its answer. */
  lemma ToggleFlipsOneItem(r: Record, s: nat, c: nat, s': nat, c': nat)
    ensures var after := r.(expandedScriptures := ToggleKey(r.expandedScriptures, ScriptureKey(s, c)));
      && (IsScriptureExpanded(after, s, c) <==> !IsScriptureExpanded(r, s, c))
      && ((s', c') != (s, c) ==> (IsScriptureExpanded(after, s', c') <==> IsScriptureExpanded(r, s', c')))
  {
    if (s', c') != (s, c) && ScriptureKey(s', c') == ScriptureKey(s, c) {
      ScriptureKeyInjective(s', c', s, c);
    }
  }

  /** Replaying the same update changes nothing more. */
  lemma ApplyUpdateIdempotent(r: Record, req: UpdateRequest, leader: nat)
    ensures ApplyUpdate(ApplyUpdate(r, req, leader), req, leader) == ApplyUpdate(r, req, leader)
  {
  }
}
