/** The per-week presentation record (app/Models/PresentationState.php and the
    presentation_states table). */
module PresentationState {
  import opened Wrappers
  import opened Outline
  import opened Week
  import opened Wire

  /** One row of presentation_states. `contentIndex` is a plain integer: the
      controller can store -1 there (see Controller.PreviousIntoEmptySection). */
  datatype Record = Record(
    weekId: nat,
    sectionIndex: int,
    contentIndex: int,
    expandedScriptures: seq<string>,
    highlightedQuestionIndex: Option<int>,
    isActive: bool,
    leaderId: Option<nat>)

  /** The attributes `firstOrCreate` gives a new row: cursor (0, 0), nothing revealed
      or highlighted, inactive, and the leader when one is known. */
  function Defaults(weekId: nat, leaderId: Option<nat>): (r: Record)
    ensures r.weekId == weekId && r.sectionIndex == 0 && r.contentIndex == 0
    ensures r.expandedScriptures == [] && r.highlightedQuestionIndex == None
    ensures !r.isActive && r.leaderId == leaderId
  {
    Record(weekId, 0, 0, [], None, false, leaderId)
  }

  /** The five public fields, as `initialState`, the update response and the broadcast
      payload spell them. */
  function ViewOf(r: Record): ViewState {
    ViewState(r.sectionIndex, r.contentIndex, r.expandedScriptures, r.highlightedQuestionIndex, r.isActive)
  }

  /** The result of `getCurrentContentItem`. */
  datatype CurrentItem = CurrentItem(section: Section, sectionIndex: int, item: ContentItem, itemIndex: int)

  /** `getCurrentContentItem`, over the week's full (unfiltered) sections: the section
      and item the cursor names, or nothing when either index names no entry. */
  function GetCurrentContentItem(r: Record, week: Week): (res: Option<CurrentItem>)
    ensures !(0 <= r.sectionIndex < |FullSections(week)|) ==> res == None
    ensures 0 <= r.sectionIndex < |FullSections(week)| ==>
      var items := FullSections(week)[r.sectionIndex].content.GetOr([]);
      (res == None <==> !(0 <= r.contentIndex < |items|))
      && (res.Some? ==> res.value == CurrentItem(FullSections(week)[r.sectionIndex], r.sectionIndex,
                                                 items[r.contentIndex], r.contentIndex))
  {
    var sections := FullSections(week);
    if !(0 <= r.sectionIndex < |sections|) then None
    else
      var section := sections[r.sectionIndex];
      var items := section.content.GetOr([]);
      if !(0 <= r.contentIndex < |items|) then None
      else Some(CurrentItem(section, r.sectionIndex, items[r.contentIndex], r.contentIndex))
  }

  /** `isScriptureExpanded(s, c)`: whether the key "s-c" is recorded, at some position of
      the expanded list. */
  predicate IsScriptureExpanded(r: Record, s: int, c: int): (expanded: bool)
    ensures expanded <==> exists k :: 0 <= k < |r.expandedScriptures| && r.expandedScriptures[k] == ScriptureKey(s, c)
    ensures r.expandedScriptures == [] ==> !expanded
  {
    ScriptureKey(s, c) in r.expandedScriptures
  }
}
