/** The project cards of the grid, as records rather than markup. */
module Cards {
  import opened Catalog

  /** A tag label of a card. */
  datatype Tag = Tag(text: string, primary: bool)

  /** A project card: the anchor's link and `data-category`, the icon of the image region
      (whose class is the category), the title, the optional status badge, the description,
      the tag labels, and the transition delay in tenths of a second (None until the grid
      sets it). */
  datatype Card = Card(
    link: string,
    category: string,
    icon: string,
    title: string,
    badge: Option<string>,
    description: string,
    tags: seq<Tag>,
    delay: Option<nat>)

  /** JavaScript truthiness of the optional status string: absent and "" are false. */
  predicate Truthy(status: Option<string>)
  {
    status.Some? && status.value != ""
  }

  /** The card createProjectCard builds for a record. */
  function CardOf(p: Project): (c: Card)
  {
    Card(p.link, p.category, p.icon, p.title, if Truthy(p.status) then p.status else None,
         p.description, seq(|p.tags|, i requires 0 <= i < |p.tags| => Tag(p.tags[i], i == 0)), None)
  }

  /** The grid renderProjects fills for the filtered records: the i-th card shows the i-th
      record and waits i tenths of a second. */
  function GridCards(fs: seq<Project>): (cards: seq<Card>)
  {
    seq(|fs|, i requires 0 <= i < |fs| => CardOf(fs[i]).(delay := Some(i)))
  }

  /** createProjectCard: the card carries the record's link, category, icon, title and
      description, one tag label per tag in order with only the first one primary, and a
      status badge exactly when the status is truthy. */
  method CreateProjectCard(p: Project) returns (card: Card)
    ensures card == CardOf(p)
    ensures card.link == p.link && card.category == p.category && card.icon == p.icon
    ensures card.title == p.title && card.description == p.description
    ensures |card.tags| == |p.tags|
    ensures forall i :: 0 <= i < |card.tags| ==>
      card.tags[i].text == p.tags[i] && (card.tags[i].primary <==> i == 0)
    ensures card.badge.Some? <==> Truthy(p.status)
    ensures card.badge.Some? ==> card.badge == p.status
    ensures card.delay.None?
  {
    var tags: seq<Tag> := [];
    var index := 0;
    while index < |p.tags|
      invariant 0 <= index <= |p.tags|
      invariant |tags| == index
      invariant forall i :: 0 <= i < index ==> tags[i] == Tag(p.tags[i], i == 0)
    {
      tags := tags + [Tag(p.tags[index], index == 0)];
      index := index + 1;
    }
    var badge := if Truthy(p.status) then p.status else None;
    card := Card(p.link, p.category, p.icon, p.title, badge, p.description, tags, None);
  }
}
