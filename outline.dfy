/** The lesson outline a presentation steps through: sections of typed content
    items (the shapes in resources/js/types/presentation.ts and the `sections` JSON
    column of a week), and the "s-c" key that names an item position. */
module Outline {
  import opened Wrappers
  import Decimal

  /** The `type` tag of a content item. */
  datatype Kind = Body | Scripture | Prompts | LeaderNote | Callout

  /** One content item; every payload field is optional, as in the JSON. */
  datatype ContentItem = ContentItem(
    kind: Kind,
    text: Option<string>,
    ref: Option<string>,
    questions: Option<seq<string>>,
    title: Option<string>,
    content: Option<string>)

  /** A section. Its `content` key may be missing from the stored JSON. */
  datatype Section = Section(title: string, icon: string, content: Option<seq<ContentItem>>)

  predicate IsLeaderNote(item: ContentItem) {
    item.kind == LeaderNote
  }

  /** Every section carries its `content` list, as the TypeScript `Section` type demands. */
  predicate HasContent(sections: seq<Section>) {
    forall i :: 0 <= i < |sections| ==> sections[i].content.Some?
  }

  /** The items of section `s` of a view in which every section has content. */
  function Items(sections: seq<Section>, s: nat): seq<ContentItem>
    requires HasContent(sections) && s < |sections|
  {
    sections[s].content.value
  }

  /** The key "{s}-{c}" under which an item position is recorded as revealed. */
  function ScriptureKey(s: int, c: int): string {
    Decimal.IntToString(s) + "-" + Decimal.IntToString(c)
  }

  /** Different non-negative positions give different keys. */
  lemma ScriptureKeyInjective(s: nat, c: nat, s': nat, c': nat)
    requires ScriptureKey(s, c) == ScriptureKey(s', c')
    ensures s == s' && c == c'
  {
    var x, y := Decimal.NatToString(s), Decimal.NatToString(c);
    var x', y' := Decimal.NatToString(s'), Decimal.NatToString(c');
    assert '-' !in x by { assert forall i :: 0 <= i < |x| ==> Decimal.IsDigit(x[i]); }
    assert '-' !in x' by { assert forall i :: 0 <= i < |x'| ==> Decimal.IsDigit(x'[i]); }
    Decimal.SplitAtSeparator(x, y, x', y', '-');
    Decimal.NatToStringInjective(s, s');
    Decimal.NatToStringInjective(c, c');
  }
}
