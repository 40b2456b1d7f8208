/** A week of a series and its participant view (app/Models/Week.php). */
module Week {
  import opened Wrappers
  import opened Outline
  import Seqs

  /** A week: its id and its nullable `sections` JSON column. */
  datatype Week = Week(id: nat, sections: Option<seq<Section>>)

  /** The full view: the stored sections, with a missing column read as none. */
  function FullSections(week: Week): seq<Section> {
    week.sections.GetOr([])
  }

  /** Items a participant may see: everything except leader notes. */
  predicate ShownToParticipant(item: ContentItem) {
    !IsLeaderNote(item)
  }

  /** One section of the participant view: leader notes dropped, the rest reindexed. */
  function ParticipantSection(section: Section): (r: Section)
    ensures r.title == section.title && r.icon == section.icon
    ensures r.content == Some(Seqs.Filter(ShownToParticipant, section.content.GetOr([])))
  {
    section.(content := Some(Seqs.Filter(ShownToParticipant, section.content.GetOr([]))))
  }

  /** `getSectionsForParticipant`: the same sections in the same order, each with its
      leader notes removed and the surviving items kept in order from index 0. */
  function ParticipantSections(week: Week): (r: seq<Section>)
    ensures |r| == |FullSections(week)|
    ensures HasContent(r)
    ensures forall s :: 0 <= s < |r| ==>
      r[s].title == FullSections(week)[s].title && r[s].icon == FullSections(week)[s].icon
    ensures forall s :: 0 <= s < |r| ==>
      r[s].content.value == Seqs.Filter(ShownToParticipant, FullSections(week)[s].content.GetOr([]))
    ensures forall s, c :: 0 <= s < |r| && 0 <= c < |r[s].content.value| ==>
      !IsLeaderNote(r[s].content.value[c])
  {
    var full := FullSections(week);
    seq(|full|, s requires 0 <= s < |full| => ParticipantSection(full[s]))
  }

  /** The participant view of a week whose sections are already a participant view is
      that view itself. */
  lemma ParticipantSectionsIdempotent(week: Week)
    ensures ParticipantSections(Week(week.id, Some(ParticipantSections(week)))) == ParticipantSections(week)
  {
    var once := ParticipantSections(week);
    var twice := ParticipantSections(Week(week.id, Some(once)));
    forall s | 0 <= s < |once| ensures twice[s] == once[s] {
      Seqs.FilterIdempotent(ShownToParticipant, FullSections(week)[s].content.GetOr([]));
    }
  }

  /** A week without sections has an empty participant view, and a section without a
      `content` key gets an empty list. */
  lemma ParticipantSectionsOfMissing(week: Week, s: nat)
    ensures week.sections == None ==> ParticipantSections(week) == []
    ensures week.sections.Some? && s < |week.sections.value| && week.sections.value[s].content == None
      ==> ParticipantSections(week)[s].content == Some([])
  {
  }

  /** An item is in a participant section exactly when it is in the full section and is
      not a leader note. */
  lemma ParticipantItemsExactly(week: Week, s: nat, item: ContentItem)
    requires s < |FullSections(week)|
    ensures item in ParticipantSections(week)[s].content.value
        <==> item in FullSections(week)[s].content.GetOr([]) && !IsLeaderNote(item)
  {
    var items := FullSections(week)[s].content.GetOr([]);
    if item in items && !IsLeaderNote(item) {
      var i :| 0 <= i < |items| && items[i] == item;
    }
  }
}
