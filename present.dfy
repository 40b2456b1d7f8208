/** What the projector page shows (resources/js/pages/presentation/present.tsx). */
module Present {
  import opened Wrappers
  import opened Outline
  import opened Week
  import opened Wire
  import opened PresentationState

  /** The main area of the projector page. */
  datatype Screen =
    | Waiting                                                    // no section at the cursor
    | SectionHeader(title: string, icon: string)                 // a section, no item at the cursor
    | BodyScreen(text: string)
    | ScriptureScreen(reference: string, text: string, expanded: bool)
    | SingleQuestion(question: string)
    | AllQuestions(questions: seq<string>)
    | CalloutScreen(title: string, content: string)
    | UnknownType                                                // any other item type

  /** `PresentationPrompts`: only the highlighted question when it exists and is not
      empty, otherwise every question in order. */
  function Prompts(questions: seq<string>, highlighted: Option<int>): (screen: Screen)
    ensures highlighted.Some? && 0 <= highlighted.value < |questions| && questions[highlighted.value] != "" ==>
      screen == SingleQuestion(questions[highlighted.value])
    ensures !(highlighted.Some? && 0 <= highlighted.value < |questions| && questions[highlighted.value] != "") ==>
      screen == AllQuestions(questions)
  {
    if highlighted.Some? && 0 <= highlighted.value < |questions| && questions[highlighted.value] != "" then
      SingleQuestion(questions[highlighted.value])
    else
      AllQuestions(questions)
  }

  /** The screen for one item at cursor (s, c); missing texts show as empty. */
  function ItemScreen(item: ContentItem, state: ViewState): (screen: Screen)
    ensures screen == UnknownType <==> item.kind == LeaderNote
    ensures screen.BodyScreen? <==> item.kind == Body
    ensures screen.ScriptureScreen? <==> item.kind == Scripture
    ensures screen.CalloutScreen? <==> item.kind == Callout
    ensures screen.SingleQuestion? || screen.AllQuestions? <==> item.kind == Kind.Prompts
    ensures screen.ScriptureScreen? ==>
      (screen.expanded <==> ScriptureKey(state.sectionIndex, state.contentIndex) in state.expandedScriptures)
    ensures screen.ScriptureScreen? ==> screen.reference == item.ref.GetOr("") && screen.text == item.text.GetOr("")
  {
    match item.kind
    case Body => BodyScreen(item.text.GetOr(""))
    case Scripture =>
      ScriptureScreen(item.ref.GetOr(""), item.text.GetOr(""),
                      ScriptureKey(state.sectionIndex, state.contentIndex) in state.expandedScriptures)
    case Prompts => Prompts(item.questions.GetOr([]), state.highlightedQuestionIndex)
    case Callout => CalloutScreen(item.title.GetOr(""), item.content.GetOr(""))
    case LeaderNote => UnknownType
  }

  /** `CurrentContent`: waiting when the cursor names no section, the section header
      when it names no item of it, and otherwise the screen for that item. */
  function CurrentContent(sections: seq<Section>, state: ViewState): (screen: Screen)
    requires HasContent(sections)
    ensures !(0 <= state.sectionIndex < |sections|) <==> screen == Waiting
    ensures 0 <= state.sectionIndex < |sections| && !(0 <= state.contentIndex < |Items(sections, state.sectionIndex)|) ==>
      screen == SectionHeader(sections[state.sectionIndex].title, sections[state.sectionIndex].icon)
    ensures 0 <= state.sectionIndex < |sections| && 0 <= state.contentIndex < |Items(sections, state.sectionIndex)| ==>
      screen == ItemScreen(Items(sections, state.sectionIndex)[state.contentIndex], state)
  {
    if !(0 <= state.sectionIndex < |sections|) then Waiting
    else
      var section := sections[state.sectionIndex];
      var items := section.content.value;
      if !(0 <= state.contentIndex < |items|) then SectionHeader(section.title, section.icon)
      else ItemScreen(items[state.contentIndex], state)
  }

  /** The projector never meets a leader note, so it never shows "Unknown content type". */
  lemma ViewerNeverShowsUnknown(week: Week, r: Record)
    ensures CurrentContent(ParticipantSections(week), ViewOf(r)) != UnknownType
  {
    var view := ParticipantSections(week);
    var state := ViewOf(r);
    if 0 <= state.sectionIndex < |view| && 0 <= state.contentIndex < |Items(view, state.sectionIndex)| {
      assert !IsLeaderNote(Items(view, state.sectionIndex)[state.contentIndex]);
    }
  }

  /** A scripture on the projector is revealed exactly when the record says the item at
      the cursor is expanded. */
  lemma ScriptureRevealedIffExpanded(sections: seq<Section>, r: Record)
    requires HasContent(sections)
    requires CurrentContent(sections, ViewOf(r)).ScriptureScreen?
    ensures CurrentContent(sections, ViewOf(r)).expanded <==> IsScriptureExpanded(r, r.sectionIndex, r.contentIndex)
  {
  }

  /** The status of one footer dot. */
  datatype Dot = Current | Done | Pending

  /** Dot `i` against the section at the cursor. */
  function DotStatus(i: int, sectionIndex: int): (d: Dot)
    ensures d == Current <==> i == sectionIndex
    ensures d == Done <==> i < sectionIndex
    ensures d == Pending <==> i > sectionIndex
  {
    if i == sectionIndex then Current else if i < sectionIndex then Done else Pending
  }

  /** The footer: one dot per section. */
  function FooterDots(sectionCount: nat, sectionIndex: int): (dots: seq<Dot>)
    ensures |dots| == sectionCount
    ensures forall i :: 0 <= i < sectionCount ==> dots[i] == DotStatus(i, sectionIndex)
  {
    seq(sectionCount, i => DotStatus(i, sectionIndex))
  }

  /** When the cursor names a section, exactly one dot is current and exactly the dots
      before it are done. */
  lemma FooterOneCurrent(sectionCount: nat, sectionIndex: int)
    requires 0 <= sectionIndex < sectionCount
    ensures var dots := FooterDots(sectionCount, sectionIndex);
      multiset(dots)[Current] == 1 && multiset(dots)[Done] == sectionIndex
  {
    var dots := FooterDots(sectionCount, sectionIndex);
    CountDots(dots, sectionIndex, |dots|);
    assert dots[..|dots|] == dots;
  }

  /** Counting the first k dots: the done ones and the current one seen so far. */
  lemma {:induction false} CountDots(dots: seq<Dot>, sectionIndex: int, k: nat)
    requires 0 <= sectionIndex < |dots| && k <= |dots|
    requires forall i :: 0 <= i < |dots| ==> dots[i] == DotStatus(i, sectionIndex)
    ensures multiset(dots[..k])[Done] == if k <= sectionIndex then k else sectionIndex
    ensures multiset(dots[..k])[Current] == if k <= sectionIndex then 0 else 1
  {
    if k > 0 {
      CountDots(dots, sectionIndex, k - 1);
      assert dots[..k] == dots[..k - 1] + [dots[k - 1]];
    }
  }

  /** The header's status text. */
  function StatusText(isConnected: bool, connectionIssue: Option<string>): (text: string)
    ensures isConnected ==> text == "Connected"
    ensures !isConnected && connectionIssue.Some? ==> text == connectionIssue.value
    ensures !isConnected && connectionIssue.None? ==> text == "Connecting..."
  {
    if isConnected then "Connected" else connectionIssue.GetOr("Connecting...")
  }
}
