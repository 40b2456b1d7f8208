/** The leader's control center (resources/js/pages/presentation/control.tsx): the flat
    outline of every item, where the cursor sits in it, the button and key rules. */
module Control {
  import opened Wrappers
  import opened Outline
  import opened Week
  import opened Wire
  import opened PresentationState
  import opened Controller
  import Present
  import UsePresentation
  import Seqs

  /** One entry of `flattenedItems`. */
  datatype FlatEntry = FlatEntry(sectionIndex: nat, contentIndex: nat, item: ContentItem)

  /** The entries of section `s`, in order. */
  function SectionEntries(s: nat, items: seq<ContentItem>): (r: seq<FlatEntry>)
    ensures |r| == |items|
    ensures forall c :: 0 <= c < |items| ==> r[c] == FlatEntry(s, c, items[c])
  {
    seq(|items|, c requires 0 <= c < |items| => FlatEntry(s, c, items[c]))
  }

  /** The entries of the first `k` sections. */
  function FlatPrefix(sections: seq<Section>, k: nat): (r: seq<FlatEntry>)
    requires HasContent(sections) && k <= |sections|
  {
    if k == 0 then [] else FlatPrefix(sections, k - 1) + SectionEntries(k - 1, Items(sections, k - 1))
  }

  /** `flattenedItems` as a value: every item of every section, leader notes included. */
  function FlatItems(sections: seq<Section>): seq<FlatEntry>
    requires HasContent(sections)
  {
    FlatPrefix(sections, |sections|)
  }

  /** The flat list of the first k sections holds as many entries as those sections
      hold items. */
  lemma {:induction false} FlatLength(sections: seq<Section>, k: nat)
    requires HasContent(sections) && k <= |sections|
    ensures |FlatPrefix(sections, k)| == ItemsBefore(sections, k)
  {
    if k > 0 {
      FlatLength(sections, k - 1);
    }
  }

  /** Item c of section s sits at position ItemsBefore(s) + c of the flat list. */
  lemma {:induction false} FlatAt(sections: seq<Section>, k: nat, s: nat, c: nat)
    requires HasContent(sections) && k <= |sections|
    requires s < k && c < |Items(sections, s)|
    ensures ItemsBefore(sections, s) + c < |FlatPrefix(sections, k)|
    ensures FlatPrefix(sections, k)[ItemsBefore(sections, s) + c] == FlatEntry(s, c, Items(sections, s)[c])
  {
    FlatLength(sections, k - 1);
    if s < k - 1 {
      FlatAt(sections, k - 1, s, c);
    }
  }

  /** Every entry of the flat list is an item at its own section-major position. */
  lemma {:induction false} FlatEntryShape(sections: seq<Section>, k: nat, i: nat)
    requires HasContent(sections) && k <= |sections| && i < |FlatPrefix(sections, k)|
    ensures var e := FlatPrefix(sections, k)[i];
      e.sectionIndex < k && e.contentIndex < |Items(sections, e.sectionIndex)|
      && e.item == Items(sections, e.sectionIndex)[e.contentIndex]
      && i == ItemsBefore(sections, e.sectionIndex) + e.contentIndex
  {
    FlatLength(sections, k - 1);
    var before := FlatPrefix(sections, k - 1);
    if i < |before| {
      FlatEntryShape(sections, k - 1, i);
    }
  }

  /** The building of `flattenedItems`: a `forEach` over the sections with a `forEach`
      over each section's items, pushing one entry per item. */
  method Flatten(sections: seq<Section>) returns (flat: seq<FlatEntry>)
    requires HasContent(sections)
    ensures flat == FlatItems(sections)
  {
    flat := [];
    var s := 0;
    while s < |sections|
      invariant 0 <= s <= |sections|
      invariant flat == FlatPrefix(sections, s)
    {
      var items := sections[s].content.value;
      var c := 0;
      while c < |items|
        invariant 0 <= c <= |items|
        invariant flat == FlatPrefix(sections, s) + SectionEntries(s, items)[..c]
      {
        flat := flat + [FlatEntry(s, c, items[c])];
        c := c + 1;
      }
      assert SectionEntries(s, items)[..c] == SectionEntries(s, items);
      s := s + 1;
    }
  }

  /** `findIndex` of the entry with indices (s, c): the first such position, or -1. */
  function FindIndex(flat: seq<FlatEntry>, s: int, c: int): (i: int)
    ensures -1 <= i < |flat|
    ensures i == -1 <==> forall j :: 0 <= j < |flat| ==> !(flat[j].sectionIndex == s && flat[j].contentIndex == c)
    ensures i >= 0 ==> flat[i].sectionIndex == s && flat[i].contentIndex == c
    ensures i >= 0 ==> forall j :: 0 <= j < i ==> !(flat[j].sectionIndex == s && flat[j].contentIndex == c)
  {
    if flat == [] then -1
    else if flat[0].sectionIndex == s && flat[0].contentIndex == c then 0
    else
      var rest := FindIndex(flat[1..], s, c);
      if rest == -1 then -1 else rest + 1
  }

  /** `currentFlatIndex`. */
  function CurrentFlatIndex(sections: seq<Section>, state: ViewState): int
    requires HasContent(sections)
  {
    FindIndex(FlatItems(sections), state.sectionIndex, state.contentIndex)
  }

  /** The flat index of a cursor is its section-major position when the cursor names an
      item of the full view, and -1 otherwise. */
  lemma CurrentFlatIndexIsPosition(sections: seq<Section>, r: Record)
    requires HasContent(sections)
    ensures ValidCursor(sections, r) ==> CurrentFlatIndex(sections, ViewOf(r)) == Position(sections, r)
    ensures !ValidCursor(sections, r) ==> CurrentFlatIndex(sections, ViewOf(r)) == -1
  {
    var i := CurrentFlatIndex(sections, ViewOf(r));
    if i >= 0 {
      FlatEntryShape(sections, |sections|, i);
    } else if ValidCursor(sections, r) {
      FlatAt(sections, |sections|, r.sectionIndex, r.contentIndex);
      assert false;
    }
  }

  /** The Previous button is disabled exactly at flat index 0. */
  predicate PreviousDisabled(flatIndex: int) {
    flatIndex == 0
  }

  /** The Next button is disabled exactly at the last flat index. */
  predicate NextDisabled(flatIndex: int, flatLength: nat) {
    flatIndex == flatLength - 1
  }

  /** On a cursor of the full view, Previous is disabled exactly on the first item and
      Next exactly on the last; an outline without items disables Next only. */
  lemma DisabledRules(sections: seq<Section>, r: Record)
    requires HasContent(sections)
    ensures var i := CurrentFlatIndex(sections, ViewOf(r));
      var n := |FlatItems(sections)|;
      && (ValidCursor(sections, r) ==>
            (PreviousDisabled(i) <==> Position(sections, r) == 0)
            && (NextDisabled(i, n) <==> Position(sections, r) == ItemsBefore(sections, |sections|) - 1))
      && (!ValidCursor(sections, r) ==> !PreviousDisabled(i) && (NextDisabled(i, n) <==> n == 0))
  {
    CurrentFlatIndexIsPosition(sections, r);
    FlatLength(sections, |sections|);
    if ValidCursor(sections, r) {
      PositionBound(sections, r);
    }
  }

  /** What a key press asks for. */
  datatype Command = Navigate(direction: UsePresentation.Direction) | Highlight(questionIndex: Option<int>) | Nothing

  /** The keydown handler: right arrow and space go forward, left arrow goes back,
      Escape clears the highlight, every other key does nothing. */
  function KeyCommand(key: string): (cmd: Command)
    ensures key == "ArrowRight" || key == " " <==> cmd == Navigate(UsePresentation.Forward)
    ensures key == "ArrowLeft" <==> cmd == Navigate(UsePresentation.Backward)
    ensures key == "Escape" <==> cmd == Highlight(None)
    ensures key !in {"ArrowRight", " ", "ArrowLeft", "Escape"} <==> cmd == Nothing
  {
    if key == "ArrowRight" || key == " " then Navigate(UsePresentation.Forward)
    else if key == "ArrowLeft" then Navigate(UsePresentation.Backward)
    else if key == "Escape" then Highlight(None)
    else Nothing
  }

  /** Clicking question q: clears the highlight when q is the highlighted one, else
      highlights q. */
  function QuestionClick(highlighted: Option<int>, q: nat): (next: Option<int>)
    ensures next == Some(q) <==> highlighted != Some(q)
    ensures next == None <==> highlighted == Some(q)
  {
    if highlighted == Some(q) then None else Some(q)
  }

  /** A second click on the same question undoes the first when it switched the
      highlight off, and switches it off when the first switched it on. */
  lemma QuestionClickTwice(highlighted: Option<int>, q: nat)
    ensures QuestionClick(QuestionClick(highlighted, q), q) == (if highlighted == Some(q) then Some(q) else None)
  {
  }

  /** An outline item is active when its indices are the state's. */
  predicate IsActive(state: ViewState, s: int, c: int) {
    state.sectionIndex == s && state.contentIndex == c
  }

  /** The reveal button shows only on the active scripture item. */
  predicate RevealButtonShown(item: ContentItem, state: ViewState, s: int, c: int): (shown: bool)
    ensures shown ==> item.kind == Scripture
    ensures shown ==> state.sectionIndex == s && state.contentIndex == c
  {
    item.kind == Scripture && IsActive(state, s, c)
  }

  /** The question buttons show only on the active prompts item that has questions. */
  predicate QuestionButtonsShown(item: ContentItem, state: ViewState, s: int, c: int): (shown: bool)
    ensures shown ==> item.kind == Prompts && item.questions.Some?
    ensures shown ==> state.sectionIndex == s && state.contentIndex == c
  {
    item.kind == Prompts && IsActive(state, s, c) && item.questions.Some?
  }

  /** Either kind of control shows on flat entry `i` of the outline. */
  predicate ControlsShownAt(sections: seq<Section>, state: ViewState, i: nat)
    requires HasContent(sections) && i < |FlatItems(sections)|
  {
    var e := FlatItems(sections)[i];
    RevealButtonShown(e.item, state, e.sectionIndex, e.contentIndex)
    || QuestionButtonsShown(e.item, state, e.sectionIndex, e.contentIndex)
  }

  /** The active outline item is the one at the current flat index, and it is the only
      one. */
  lemma ActiveIsCurrentEntry(sections: seq<Section>, r: Record, i: nat)
    requires HasContent(sections) && i < |FlatItems(sections)|
    ensures var e := FlatItems(sections)[i];
      IsActive(ViewOf(r), e.sectionIndex, e.contentIndex) <==> i == CurrentFlatIndex(sections, ViewOf(r))
  {
    FlatEntryShape(sections, |sections|, i);
    CurrentFlatIndexIsPosition(sections, r);
    var e := FlatItems(sections)[i];
    if IsActive(ViewOf(r), e.sectionIndex, e.contentIndex) {
      assert ValidCursor(sections, r);
    }
  }

  /** At most one outline item shows the reveal button or the question buttons, and it is
      the one at the current flat index. */
  lemma AtMostOneItemShowsControls(sections: seq<Section>, r: Record, i: nat, j: nat)
    requires HasContent(sections) && i < |FlatItems(sections)| && j < |FlatItems(sections)|
    ensures ControlsShownAt(sections, ViewOf(r), i) ==> i == CurrentFlatIndex(sections, ViewOf(r))
    ensures ControlsShownAt(sections, ViewOf(r), i) && ControlsShownAt(sections, ViewOf(r), j) ==> i == j
  {
    ActiveIsCurrentEntry(sections, r, i);
    ActiveIsCurrentEntry(sections, r, j);
  }

  /** The current flat entry does show its controls: the reveal button when it is a
      scripture, the question buttons when it is a prompts item with questions. */
  lemma CurrentEntryShowsControls(sections: seq<Section>, r: Record, i: nat)
    requires HasContent(sections) && i < |FlatItems(sections)| && i == CurrentFlatIndex(sections, ViewOf(r))
    ensures var e := FlatItems(sections)[i];
      && (e.item.kind == Scripture ==> RevealButtonShown(e.item, ViewOf(r), e.sectionIndex, e.contentIndex))
      && (e.item.kind == Prompts && e.item.questions.Some? ==>
            QuestionButtonsShown(e.item, ViewOf(r), e.sectionIndex, e.contentIndex))
  {
    ActiveIsCurrentEntry(sections, r, i);
  }

  /** The label of an outline item's reveal button, from `isScriptureExpanded`, the
      membership of the item's own "s-c" key in the state's expanded list. */
  function RevealLabel(state: ViewState, s: int, c: int): (caption: string)
    ensures caption == "Hide Verse" || caption == "Reveal Verse"
    ensures caption == "Hide Verse" <==> ScriptureKey(s, c) in state.expandedScriptures
  {
    if ScriptureKey(s, c) in state.expandedScriptures then "Hide Verse" else "Reveal Verse"
  }

  /** The preview's "Hide Verse"/"Reveal Verse" label on the active outline entry agrees
      with the projector: the outline reads the key of the entry's full-view indices, the
      projector the key of the cursor, and on the active entry the two are the same. */
  lemma RevealLabelMatchesProjector(sections: seq<Section>, participant: seq<Section>, r: Record, i: nat)
    requires HasContent(sections) && HasContent(participant)
    requires i < |FlatItems(sections)| && i == CurrentFlatIndex(sections, ViewOf(r))
    requires Present.CurrentContent(participant, ViewOf(r)).ScriptureScreen?
    ensures var e := FlatItems(sections)[i];
      RevealLabel(ViewOf(r), e.sectionIndex, e.contentIndex) == "Hide Verse"
      <==> Present.CurrentContent(participant, ViewOf(r)).expanded
  {
    ActiveIsCurrentEntry(sections, r, i);
    Present.ScriptureRevealedIffExpanded(participant, r);
  }

  /** Selecting an item sends full-view indices, which the projector reads in the
      participant view: choosing the body after a leader note shows only the section
      header on the projector. */
  lemma SelectionAfterLeaderNote()
    ensures var note := ContentItem(LeaderNote, Some("note"), None, None, None, None);
      var body := ContentItem(Body, Some("hi"), None, None, None, None);
      var week := Week(5, Some([Section("Open", "i", Some([note, body]))]));
      var entry := FlatItems(FullSections(week))[1];
      var after := ApplyUpdate(Defaults(5, None), UpdateRequest(Some(entry.sectionIndex), Some(entry.contentIndex),
                                                                None, None, None), 1);
      entry.item == body
      && Present.CurrentContent(ParticipantSections(week), ViewOf(after)) == Present.SectionHeader("Open", "i")
  {
    var note := ContentItem(LeaderNote, Some("note"), None, None, None, None);
    var body := ContentItem(Body, Some("hi"), None, None, None, None);
    var full := [Section("Open", "i", Some([note, body]))];
    FlatAt(full, 1, 0, 1);
    assert Seqs.Filter(ShownToParticipant, [note, body]) == [body] by {
      assert [note, body][1..] == [body];
    }
  }

  /** Next can be enabled while the server has nowhere to go: the only item after the
      cursor is a leader note, which the server's walk skips. */
  lemma NextEnabledButStays()
    ensures var note := ContentItem(LeaderNote, Some("note"), None, None, None, None);
      var body := ContentItem(Body, Some("hi"), None, None, None, None);
      var week := Week(6, Some([Section("Open", "i", Some([body, note]))]));
      var r := Defaults(6, Some(1));
      && !NextDisabled(CurrentFlatIndex(FullSections(week), ViewOf(r)), |FlatItems(FullSections(week))|)
      && NextCursor(ParticipantSections(week), r) == Some(r)
  {
    var note := ContentItem(LeaderNote, Some("note"), None, None, None, None);
    var body := ContentItem(Body, Some("hi"), None, None, None, None);
    var full := [Section("Open", "i", Some([body, note]))];
    FlatLength(full, 1);
    CurrentFlatIndexIsPosition(full, Defaults(6, Some(1)));
    assert Seqs.Filter(ShownToParticipant, [body, note]) == [body] by {
      assert [body, note][1..] == [note];
      assert [note][1..] == [];
    }
  }
}
