/** The client-side presentation state and the partial state a response carries
    (the `PresentationState` shape of resources/js/types/presentation.ts). */
module Wire {
  import opened Wrappers

  /** What a page holds and what every broadcast snapshot carries. */
  datatype ViewState = ViewState(
    sectionIndex: int,
    contentIndex: int,
    expandedScriptures: seq<string>,
    highlightedQuestionIndex: Option<int>,
    isActive: bool)

  /** The `state` object of a JSON response: each field may be absent. A present
      `highlightedQuestionIndex` may itself be `null`, hence the nested option. */
  datatype StatePatch = StatePatch(
    sectionIndex: Option<int>,
    contentIndex: Option<int>,
    expandedScriptures: Option<seq<string>>,
    highlightedQuestionIndex: Option<Option<int>>,
    isActive: Option<bool>)
}
