/** Credential cards on A4 pages: grouping the sorted cards by team, then placing them. */
module CardLayout {
  import opened Wrappers

  // ---------------------------------------------------------------- grouping

  datatype Card = Card(team: string, name: string)

  datatype Group = Group(name: string, cards: seq<Card>)

  function Concat(groups: seq<Group>): seq<Card> {
    if groups == [] then [] else Concat(groups[..|groups| - 1]) + groups[|groups| - 1].cards
  }

  predicate Uniform(g: Group) { g.cards != [] && forall i | 0 <= i < |g.cards| :: g.cards[i].team == g.name }

  /** What sorting by team achieves. */
  predicate Contiguous(cards: seq<Card>) {
    forall i, j, k | 0 <= i < j < k < |cards| :: cards[i].team == cards[k].team ==> cards[j].team == cards[i].team
  }

  predicate AdjacentDiffer(groups: seq<Group>) { forall i | 0 < i < |groups| :: groups[i - 1].name != groups[i].name }

  /** The groups are the cards cut up in order: one team each, and a new group at each change of team. */
  predicate Grouped(groups: seq<Group>, cards: seq<Card>) {
    Concat(groups) == cards && AdjacentDiffer(groups) && forall i | 0 <= i < |groups| :: Uniform(groups[i])
  }

  lemma NoGroups()
    ensures Grouped([], [])
  {}

  lemma NewGroup(groups: seq<Group>, cards: seq<Card>, card: Card)
    requires Grouped(groups, cards) && (groups != [] ==> groups[|groups| - 1].name != card.team)
    ensures Grouped(groups + [Group(card.team, [card])], cards + [card])
  {
    assert (groups + [Group(card.team, [card])])[..|groups|] == groups;
  }

  lemma LongerGroup(groups: seq<Group>, cards: seq<Card>, card: Card)
    requires Grouped(groups, cards) && groups != [] && groups[|groups| - 1].name == card.team
    ensures var last, init := groups[|groups| - 1], groups[..|groups| - 1];
            Grouped(init + [Group(last.name, last.cards + [card])], cards + [card])
  {
    var last, init := groups[|groups| - 1], groups[..|groups| - 1];
    var longer := Group(last.name, last.cards + [card]);
    assert (init + [longer])[..|init|] == init;
    assert Uniform(last);
  }

  /** None stands for the index-out-of-range panic of teams[len(teams)-1]. */
  method GroupTeams(cards: seq<Card>) returns (groups: Option<seq<Group>>)
    ensures groups.None? <==> cards != [] && cards[0].team == ""
    ensures groups.Some? ==> Grouped(groups.value, cards)
  {
    hide Grouped;
    var teams: seq<Group> := [];
    var current := "";
    NoGroups();
    for n := 0 to |cards|
      invariant Grouped(teams, cards[..n]) && (teams == [] <==> n == 0)
      invariant current == if teams == [] then "" else teams[|teams| - 1].name
      invariant n > 0 ==> cards[0].team != ""
    {
      var card := cards[n];
      assert cards[..n + 1] == cards[..n] + [card];
      if card.team != current {
        NewGroup(teams, cards[..n], card);
        teams := teams + [Group(card.team, [card])];
        current := card.team;
      } else {
        if teams == [] {
          return None;
        }
        var last, init := teams[|teams| - 1], teams[..|teams| - 1];
        var longer := Group(last.name, last.cards + [card]);
        LongerGroup(teams, cards[..n], card);
        teams := init + [longer];
      }
    }
    assert cards[..|cards|] == cards;
    return Some(teams);
  }

  lemma {:induction false} GroupPlace(groups: seq<Group>, g: nat) returns (at: nat)
    requires g < |groups| && forall i | 0 <= i < |groups| :: Uniform(groups[i])
    ensures |Concat(groups[..g])| <= at < |Concat(groups[..g + 1])| <= |Concat(groups)|
    ensures Concat(groups)[at].team == groups[g].name
    decreases |groups|
  {
    var init := groups[..|groups| - 1];
    if g == |groups| - 1 {
      assert groups[..g + 1] == groups;
      at := |Concat(init)|;
      assert Concat(groups)[at] == groups[g].cards[0];
    } else {
      at := GroupPlace(init, g);
      assert init[..g] == groups[..g] && init[..g + 1] == groups[..g + 1];
      assert Concat(groups)[at] == Concat(init)[at];
    }
  }

  lemma {:induction false} ConcatGrows(groups: seq<Group>, i: nat, j: nat)
    requires i <= j <= |groups|
    ensures |Concat(groups[..i])| <= |Concat(groups[..j])|
    decreases j
  {
    if i < j {
      assert groups[..j][..j - 1] == groups[..j - 1];
      ConcatGrows(groups, i, j - 1);
    }
  }

  /** On sorted cards, every team gets one group. */
  lemma OneGroupPerTeam(groups: seq<Group>, i: nat, j: nat)
    requires i < j < |groups| && AdjacentDiffer(groups) && forall i | 0 <= i < |groups| :: Uniform(groups[i])
    requires Contiguous(Concat(groups))
    ensures groups[i].name != groups[j].name
  {
    hide Concat, Uniform;
    assert groups[i + 1 - 1].name != groups[i + 1].name;
    if i + 1 < j {
      var x := GroupPlace(groups, i);
      var y := GroupPlace(groups, i + 1);
      var z := GroupPlace(groups, j);
      ConcatGrows(groups, i + 2, j);
      assert x < y < z && Concat(groups)[y].team != Concat(groups)[x].team;
    }
  }

  // ---------------------------------------------------------------- placing

  const MARGIN := 10.0
  const PAGE_W := 190.0
  const CARD_W := PAGE_W / 2.0 - 3.0
  const CARD_H := 52.0
  const GAP_X := 6.0
  const GAP_Y := 5.0
  const TEAM_HEADER := 8.0
  const BAR_H := 6.0
  const BOTTOM := 280.0

  /** A team bar, or card `index` of a group. */
  datatype What = Bar(group: nat) | Tile(group: nat, index: nat)

  datatype Item = Item(page: nat, x: real, y: real, what: What)

  function Width(item: Item): real { if item.what.Bar? then PAGE_W else CARD_W }

  function Height(item: Item): real { if item.what.Bar? then BAR_H else CARD_H }

  predicate Apart(a: Item, b: Item) {
    || a.page != b.page
    || a.x + Width(a) < b.x || b.x + Width(b) < a.x
    || a.y + Height(a) < b.y || b.y + Height(b) < a.y
  }

  /** The cards of groups of the given sizes, group by group. */
  function Tiles(sizes: seq<nat>): seq<What> {
    if sizes == [] then []
    else Tiles(sizes[..|sizes| - 1]) + TileSeq(|sizes| - 1, sizes[|sizes| - 1])
  }

  function Drawn(items: seq<Item>): seq<What> {
    if items == [] then []
    else Drawn(items[..|items| - 1]) + if items[|items| - 1].what.Tile? then [items[|items| - 1].what] else []
  }

  predicate AllApart(items: seq<Item>) { forall i, j | 0 <= i < j < |items| :: Apart(items[i], items[j]) }

  predicate CardsFit(items: seq<Item>) {
    forall i | 0 <= i < |items| && items[i].what.Tile? :: items[i].y + CARD_H <= BOTTOM
  }

  predicate BarsFit(items: seq<Item>) {
    forall i | 0 <= i < |items| && items[i].what.Bar? :: items[i].y + BAR_H <= BOTTOM
  }

  /** A card in the right column stands beside the card drawn just before it. */
  predicate RowWhole(items: seq<Item>, i: nat)
    requires i < |items|
  {
    items[i].what.Tile? ==>
      || items[i].x == MARGIN
      || (items[i].x == MARGIN + CARD_W + GAP_X && i > 0 && items[i - 1].what.Tile? && items[i - 1].x == MARGIN
          && items[i - 1].page == items[i].page && items[i - 1].y == items[i].y
          && items[i - 1].what.group == items[i].what.group)
  }

  predicate RowsWhole(items: seq<Item>) { forall i | 0 <= i < |items| :: RowWhole(items, i) }

  /** Bar i has its team's first card right below it. */
  predicate BarHasCard(items: seq<Item>, i: nat)
    requires i < |items| && items[i].what.Bar?
  {
    && i + 1 < |items| && items[i + 1].what == Tile(items[i].what.group, 0)
    && items[i + 1].page == items[i].page && items[i + 1].y == items[i].y + TEAM_HEADER
  }

  predicate BarsHaveCards(items: seq<Item>, n: nat)
    requires n <= |items|
  {
    forall i | 0 <= i < n && items[i].what.Bar? :: BarHasCard(items, i)
  }

  /** Everything on the page ends above y, except perhaps the last item: a left card at exactly y. */
  predicate AboveRow(items: seq<Item>, page: nat, y: real, col: nat) {
    && (forall i | 0 <= i < |items| :: items[i].page <= page)
    && (forall i | 0 <= i < |items| && items[i].page == page ::
         items[i].y + Height(items[i]) < y || (col == 1 && i == |items| - 1))
    && (col == 1 ==>
         items != [] && var last := items[|items| - 1];
         last.page == page && last.what.Tile? && last.x == MARGIN && last.y == y)
  }

  function RowY(startY: real, row: nat): real { startY + row as real * (CARD_H + GAP_Y) }

  predicate Sound(items: seq<Item>) { CardsFit(items) && AllApart(items) && RowsWhole(items) }

  lemma DrawnNext(items: seq<Item>, item: Item)
    ensures Drawn(items + [item]) == Drawn(items) + if item.what.Tile? then [item.what] else []
  {
    assert (items + [item])[..|items|] == items;
  }

  lemma BelowApart(items: seq<Item>, page: nat, y: real, item: Item)
    requires AllApart(items) && AboveRow(items, page, y, 0) && item.page == page && item.y == y
    ensures AllApart(items + [item])
  {
    forall i | 0 <= i < |items| ensures Apart(items[i], item) {}
  }

  lemma LeftWhole(items: seq<Item>, item: Item)
    requires RowsWhole(items) && (item.what.Tile? ==> item.x == MARGIN)
    ensures RowsWhole(items + [item])
  {
    var more := items + [item];
    forall i | 0 <= i < |items| ensures RowWhole(more, i) { assert RowWhole(items, i); }
  }

  lemma AddBar(items: seq<Item>, page: nat, y: real, g: nat)
    requires Sound(items) && AboveRow(items, page, y, 0)
    ensures var more := items + [Item(page, MARGIN, y, Bar(g))];
            Sound(more) && AboveRow(more, page, y + TEAM_HEADER, 0)
  {
    hide AllApart, Apart, RowsWhole;
    BelowApart(items, page, y, Item(page, MARGIN, y, Bar(g)));
    LeftWhole(items, Item(page, MARGIN, y, Bar(g)));
  }

  lemma AddLeft(items: seq<Item>, page: nat, y: real, g: nat, k: nat)
    requires Sound(items) && AboveRow(items, page, y, 0) && y + CARD_H <= BOTTOM
    ensures var more := items + [Item(page, MARGIN, y, Tile(g, k))];
            Sound(more) && AboveRow(more, page, y, 1)
  {
    hide AllApart, Apart, RowsWhole;
    BelowApart(items, page, y, Item(page, MARGIN, y, Tile(g, k)));
    LeftWhole(items, Item(page, MARGIN, y, Tile(g, k)));
  }

  lemma RightApart(items: seq<Item>, page: nat, y: real, tile: Item)
    requires AllApart(items) && AboveRow(items, page, y, 1) && tile.x == MARGIN + CARD_W + GAP_X && tile.y == y
    requires tile.page == page
    ensures AllApart(items + [tile])
  {
    forall i | 0 <= i < |items| ensures Apart(items[i], tile) {}
  }

  lemma RightWhole(items: seq<Item>, page: nat, y: real, g: nat, k: nat)
    requires RowsWhole(items) && AboveRow(items, page, y, 1) && items[|items| - 1].what.group == g
    ensures RowsWhole(items + [Item(page, MARGIN + CARD_W + GAP_X, y, Tile(g, k))])
  {
    var more := items + [Item(page, MARGIN + CARD_W + GAP_X, y, Tile(g, k))];
    forall i | 0 <= i < |items| ensures RowWhole(more, i) { assert RowWhole(items, i); }
  }

  lemma RightAbove(items: seq<Item>, page: nat, y: real, tile: Item)
    requires AboveRow(items, page, y, 1) && tile.y == y && tile.page == page && tile.what.Tile?
    ensures AboveRow(items + [tile], page, y + CARD_H + GAP_Y, 0)
  {}

  lemma AddRight(items: seq<Item>, page: nat, y: real, g: nat, k: nat)
    requires Sound(items) && AboveRow(items, page, y, 1) && y + CARD_H <= BOTTOM && items[|items| - 1].what.group == g
    ensures var more := items + [Item(page, MARGIN + CARD_W + GAP_X, y, Tile(g, k))];
            Sound(more) && AboveRow(more, page, y + CARD_H + GAP_Y, 0)
  {
    var tile := Item(page, MARGIN + CARD_W + GAP_X, y, Tile(g, k));
    RightApart(items, page, y, tile);
    RightWhole(items, page, y, g, k);
    RightAbove(items, page, y, tile);
    hide AboveRow, AllApart, RowsWhole;
  }

  lemma Rows(startY: real, row: nat)
    ensures RowY(startY, row + 1) == RowY(startY, row) + CARD_H + GAP_Y
    ensures RowY(startY + TEAM_HEADER, row) == RowY(startY, row) + TEAM_HEADER
    ensures RowY(startY, 0) == startY
  {}

  lemma TurnPage(items: seq<Item>, page: nat, y: real, col: nat, top: real)
    requires AboveRow(items, page, y, col)
    ensures AboveRow(items, page + 1, top, 0)
  {}

  lemma EndRow(items: seq<Item>, page: nat, y: real)
    requires AboveRow(items, page, y, 1)
    ensures AboveRow(items, page, y + CARD_H + GAP_Y, 0)
  {}

  /** The page, the top of its first row, the row and the column the next card goes to. */
  datatype Cursor = Cursor(page: nat, startY: real, row: nat, col: nat)

  /** Where card k of a team goes, and where the cursor is then. */
  function TileAt(c: Cursor, g: nat, k: nat, next: real): (Item, Cursor) {
    var broken := RowY(c.startY, c.row) + CARD_H > BOTTOM;
    var d := if broken then Cursor(c.page + 1, next, 0, 0) else c;
    var y := if broken then next else RowY(c.startY, c.row);
    (Item(d.page, MARGIN + d.col as real * (CARD_W + GAP_X), y, Tile(g, k)),
     if d.col >= 1 then d.(row := d.row + 1, col := 0) else d.(col := d.col + 1))
  }

  // ---------------------------------------------------------------- each item follows from the one before

  /** The next item, in millimetres: below a bar comes its team's first card, 8 lower; right of a left
      card the next one, 98 further; after a right card, or after a team's last card, the next row, 57
      lower. A page is turned only when a card, or a bar with a card, would end below 280. */
  predicate Follows(a: Item, b: Item, first: real, next: real) {
    match (a.what, b.what)
    case (Bar(g), Tile(h, k)) =>
      h == g && k == 0 && b.x == 10.0 && NextLine(a.page, a.y + 8.0, 52.0, next, b)
    case (Tile(g, j), Tile(h, k)) =>
      && h == g && k == j + 1
      && if a.x == 10.0 then b == Item(a.page, 108.0, a.y, b.what)
         else b.x == 10.0 && NextLine(a.page, a.y + 57.0, 52.0, next, b)
    case (Tile(g, j), Bar(h)) => h == g + 1 && b.x == 10.0 && NextLine(a.page, a.y + 57.0, 60.0, first, b)
    case (Bar(_), Bar(_)) => false
  }

  /** The item is at y if `height` fits below, else on a new page, at its top. */
  predicate NextLine(page: nat, y: real, height: real, top: real, item: Item) {
    if y + height <= 280.0 then item.page == page && item.y == y else item.page == page + 1 && item.y == top
  }

  predicate AllFollow(items: seq<Item>, first: real, next: real) {
    && (forall i | 0 < i < |items| :: Follows(items[i - 1], items[i], first, next))
    && (items != [] ==> items[0].what == Bar(0) && items[0].x == 10.0 && NextLine(0, first, 60.0, first, items[0]))
  }

  /** Where the cursor stands after the item drawn last. */
  predicate StandsAfter(a: Item, c: Cursor) {
    && c.page == a.page
    && if a.what.Bar? then c.col == 0 && RowY(c.startY, c.row) == a.y + 8.0
       else if a.x == 10.0 then c.col == 1 && RowY(c.startY, c.row) == a.y
       else c.col == 0 && RowY(c.startY, c.row) == a.y + 57.0
  }

  predicate Chained(items: seq<Item>, c: Cursor, first: real, next: real) {
    items != [] && AllFollow(items, first, next) && StandsAfter(items[|items| - 1], c)
  }

  lemma FollowNext(items: seq<Item>, item: Item, first: real, next: real)
    requires items != [] && AllFollow(items, first, next) && Follows(items[|items| - 1], item, first, next)
    ensures AllFollow(items + [item], first, next)
  {
    hide Follows, NextLine;
    var more := items + [item];
    forall i | 0 < i < |more| ensures Follows(more[i - 1], more[i], first, next) {
      if i < |items| { assert more[i] == items[i] && more[i - 1] == items[i - 1]; }
    }
  }

  lemma TileFollows(a: Item, c: Cursor, g: nat, k: nat, first: real, next: real)
    requires StandsAfter(a, c) && (c.col == 1 ==> RowY(c.startY, c.row) + CARD_H <= BOTTOM)
    requires a.what == (if k == 0 then Bar(g) else Tile(g, k - 1))
    ensures var (item, d) := TileAt(c, g, k, next); Follows(a, item, first, next) && StandsAfter(item, d)
  {
    Rows(c.startY, c.row);
    Rows(next, 0);
    hide RowY;
  }

  lemma TileChains(items: seq<Item>, c: Cursor, g: nat, k: nat, first: real, next: real)
    requires Chained(items, c, first, next) && (c.col == 1 ==> RowY(c.startY, c.row) + CARD_H <= BOTTOM)
    requires items[|items| - 1].what == (if k == 0 then Bar(g) else Tile(g, k - 1))
    ensures var (item, d) := TileAt(c, g, k, next); Chained(items + [item], d, first, next)
  {
    TileFollows(items[|items| - 1], c, g, k, first, next);
    hide Follows, StandsAfter, AllFollow, RowY, TileAt;
    FollowNext(items, TileAt(c, g, k, next).0, first, next);
  }

  /** Whether a bar at the cursor's row follows what has been drawn. */
  predicate BarFollows(items: seq<Item>, c: Cursor, g: nat, first: real, next: real) {
    var bar := Item(c.page, MARGIN, RowY(c.startY, c.row), Bar(g));
    && c.col == 0 && AllFollow(items, first, next)
    && if items == [] then g == 0 && NextLine(0, first, 60.0, first, bar)
       else Follows(items[|items| - 1], bar, first, next)
  }

  lemma BarChains(items: seq<Item>, c: Cursor, g: nat, first: real, next: real)
    requires BarFollows(items, c, g, first, next)
    ensures var bar := Item(c.page, MARGIN, RowY(c.startY, c.row), Bar(g));
            Chained(items + [bar], c.(startY := c.startY + TEAM_HEADER), first, next)
  {
    Rows(c.startY, c.row);
    var bar := Item(c.page, MARGIN, RowY(c.startY, c.row), Bar(g));
    hide RowY, Follows, NextLine;
    if items != [] { FollowNext(items, bar, first, next); }
  }

  predicate At(items: seq<Item>, c: Cursor) {
    Sound(items) && c.col <= 1 && AboveRow(items, c.page, RowY(c.startY, c.row), c.col)
  }

  /** A left card of group g is waiting for its neighbour, which will fit the page. */
  predicate Waiting(items: seq<Item>, c: Cursor, g: nat) {
    items != [] && items[|items| - 1].what.group == g && RowY(c.startY, c.row) + CARD_H <= BOTTOM
  }

  predicate Ready(items: seq<Item>, c: Cursor, g: nat) { At(items, c) && (c.col == 1 ==> Waiting(items, c, g)) }

  lemma TilePlacedRight(items: seq<Item>, c: Cursor, g: nat, k: nat, next: real)
    requires Ready(items, c, g) && c.col == 1
    ensures var (item, d) := TileAt(c, g, k, next); Ready(items + [item], d, g)
  {
    hide Sound, AboveRow, RowY;
    Rows(c.startY, c.row);
    AddRight(items, c.page, RowY(c.startY, c.row), g, k);
  }

  lemma TilePlacedLeft(items: seq<Item>, c: Cursor, g: nat, k: nat, next: real)
    requires Ready(items, c, g) && c.col == 0 && RowY(c.startY, c.row) + CARD_H <= BOTTOM
    ensures var (item, d) := TileAt(c, g, k, next); Ready(items + [item], d, g)
  {
    hide Sound, AboveRow, RowY;
    AddLeft(items, c.page, RowY(c.startY, c.row), g, k);
  }

  lemma TilePlacedBreak(items: seq<Item>, c: Cursor, g: nat, k: nat, next: real)
    requires Ready(items, c, g) && c.col == 0 && RowY(c.startY, c.row) + CARD_H > BOTTOM && next + CARD_H <= BOTTOM
    ensures var (item, d) := TileAt(c, g, k, next); Ready(items + [item], d, g)
  {
    hide Sound, AboveRow, RowY;
    Rows(next, 0);
    TurnPage(items, c.page, RowY(c.startY, c.row), 0, next);
    AddLeft(items, c.page + 1, next, g, k);
  }

  lemma TilePlaced(items: seq<Item>, c: Cursor, g: nat, k: nat, next: real)
    requires Ready(items, c, g) && next + CARD_H <= BOTTOM
    ensures var (item, d) := TileAt(c, g, k, next); Ready(items + [item], d, g) && d.col <= 1
  {
    if c.col == 1 { TilePlacedRight(items, c, g, k, next); }
    else if RowY(c.startY, c.row) + CARD_H > BOTTOM { TilePlacedBreak(items, c, g, k, next); }
    else { TilePlacedLeft(items, c, g, k, next); }
  }

  /** Where a team's first card goes after a bar at teamY: below the bar if the page has room. */
  function FirstTile(page: nat, teamY: real, g: nat, next: real): Item {
    if teamY + TEAM_HEADER + CARD_H <= BOTTOM then Item(page, MARGIN, teamY + TEAM_HEADER, Tile(g, 0))
    else Item(page + 1, MARGIN, next, Tile(g, 0))
  }

  function TileSeq(g: nat, n: nat): seq<What> { seq(n, k requires 0 <= k => Tile(g, k)) }

  /** A team's bar and its first k cards have been added to the items before. */
  predicate Grown(before: seq<Item>, bar: Item, items: seq<Item>, g: nat, k: nat, next: real) {
    && |items| == |before| + 1 + k && before <= items && items[|before|] == bar
    && Drawn(items) == Drawn(before) + TileSeq(g, k)
    && (k > 0 ==> items[|before| + 1] == FirstTile(bar.page, bar.y, g, next))
    && (forall i | |before| < i < |items| :: items[i].what.Tile?)
  }

  lemma GrownBegins(before: seq<Item>, bar: Item, g: nat, next: real)
    requires bar.what.Bar?
    ensures Grown(before, bar, before + [bar], g, 0, next)
  {
    DrawnNext(before, bar);
  }

  lemma GrownStep(before: seq<Item>, bar: Item, items: seq<Item>, g: nat, k: nat, next: real, item: Item)
    requires Grown(before, bar, items, g, k, next) && item.what == Tile(g, k)
    requires k == 0 ==> item == FirstTile(bar.page, bar.y, g, next)
    ensures Grown(before, bar, items + [item], g, k + 1, next)
  {
    DrawnNext(items, item);
    hide Drawn;
    assert TileSeq(g, k + 1) == TileSeq(g, k) + [Tile(g, k)];
  }

  lemma BarPlaced(before: seq<Item>, start: Cursor, g: nat)
    requires At(before, start) && start.col == 0
    ensures var bar := Item(start.page, MARGIN, RowY(start.startY, start.row), Bar(g));
            Ready(before + [bar], start.(startY := start.startY + TEAM_HEADER), g)
  {
    AddBar(before, start.page, RowY(start.startY, start.row), g);
    Rows(start.startY, start.row);
  }

  lemma FirstTileAt(start: Cursor, g: nat, next: real)
    requires start.col == 0
    ensures TileAt(start.(startY := start.startY + TEAM_HEADER), g, 0, next).0
            == FirstTile(start.page, RowY(start.startY, start.row), g, next)
  {
    Rows(start.startY, start.row);
  }

  /** A team's bar at the current row and its cards after it; the row must be a fresh one. */
  method PlaceTeam(before: seq<Item>, start: Cursor, g: nat, size: nat, ghost first: real, next: real)
    returns (items: seq<Item>, c: Cursor)
    requires At(before, start) && start.col == 0 && next + CARD_H <= BOTTOM
    requires BarFollows(before, start, g, first, next)
    ensures Chained(items, c, first, next)
    ensures items[|items| - 1].what == if size == 0 then Bar(g) else Tile(g, size - 1)
    ensures Ready(items, c, g)
    ensures Grown(before, Item(start.page, MARGIN, RowY(start.startY, start.row), Bar(g)), items, g, size, next)
  {
    var bar := Item(start.page, MARGIN, RowY(start.startY, start.row), Bar(g));
    BarPlaced(before, start, g);
    GrownBegins(before, bar, g, next);
    BarChains(before, start, g, first, next);
    items, c := before + [bar], start.(startY := start.startY + TEAM_HEADER);
    hide Ready, RowY, Grown, At, TileAt, FirstTile, AllFollow, StandsAfter, BarFollows;
    assert TileAt(c, g, 0, next).0 == FirstTile(bar.page, bar.y, g, next) by {
      FirstTileAt(start, g, next);
    }
    for k := 0 to size
      invariant Ready(items, c, g) && c.col <= 1 && Grown(before, bar, items, g, k, next)
      invariant k == 0 ==> c == start.(startY := start.startY + TEAM_HEADER)
      invariant Chained(items, c, first, next)
      invariant items[|items| - 1].what == if k == 0 then Bar(g) else Tile(g, k - 1)
    {
      TilePlaced(items, c, g, k, next);
      WaitingFits(items, c, g);
      TileChains(items, c, g, k, first, next);
      TileIs(c, g, k, next);
      GrownStep(before, bar, items, g, k, next, TileAt(c, g, k, next).0);
      var item;
      item, c := PlaceTile(c, g, k, next);
      items := items + [item];
    }
  }

  lemma WaitingFits(items: seq<Item>, c: Cursor, g: nat)
    requires Ready(items, c, g)
    ensures c.col == 1 ==> RowY(c.startY, c.row) + CARD_H <= BOTTOM
  {}

  lemma TileIs(c: Cursor, g: nat, k: nat, next: real)
    ensures TileAt(c, g, k, next).0.what == Tile(g, k)
  {}

  /** One card: turn the page if it would cross the bottom line, then move right or down. */
  method PlaceTile(c0: Cursor, g: nat, k: nat, next: real) returns (item: Item, c: Cursor)
    requires c0.col <= 1
    ensures (item, c) == TileAt(c0, g, k, next)
  {
    c := c0;
    var x, y := MARGIN + c.col as real * (CARD_W + GAP_X), RowY(c.startY, c.row);
    if y + CARD_H > BOTTOM {
      c := Cursor(c.page + 1, next, 0, 0);
      x, y := MARGIN, next;
    }
    item := Item(c.page, x, y, Tile(g, k));
    c := c.(col := c.col + 1);
    if c.col >= 2 {
      c := c.(col := 0, row := c.row + 1);
    }
  }

  /** Place all cards. `first` is where the page header of a fresh team page ends, `next` where the
      plainer header of a continuation page ends.

      All cards come out once and in order, none below the bottom line, nothing overlaps, and no page
      break separates the two cards of a row.  Every team bar shares its page with the team's first
      card if and only if the header leaves room for a bar and a card below it. */
  method PlaceCards(sizes: seq<nat>, first: real, next: real) returns (items: seq<Item>)
    requires (forall g | 0 <= g < |sizes| :: sizes[g] > 0) && next + CARD_H <= BOTTOM
    ensures Drawn(items) == Tiles(sizes)
    ensures CardsFit(items) && AllApart(items) && RowsWhole(items)
    ensures forall i | 0 <= i < |items| && items[i].what.Tile? :: items[i].y + 52.0 <= 280.0
    ensures first + TEAM_HEADER + CARD_H <= BOTTOM ==> BarsFit(items)
    ensures sizes != [] ==> (BarsHaveCards(items, |items|) <==> first + TEAM_HEADER + CARD_H <= BOTTOM)
    ensures AllFollow(items, first, next)
  {
    items := [];
    var c := Cursor(0, first, 0, 0);
    ghost var roomy := first + TEAM_HEADER + CARD_H <= BOTTOM;
    Rows(first, 0);
    hide Drawn, Tiles, RowY, Grown, BarsOk, At, AllFollow, StandsAfter, BarFollows;
    LayoutBegins(first, roomy);
    assert AllFollow(items, first, next) by { NothingFollows(first, next); }
    for g := 0 to |sizes|
      invariant At(items, c) && Drawn(items) == Tiles(sizes[..g]) && BarsOk(items, g, roomy)
      invariant g == 0 ==> items == [] && c == Cursor(0, first, 0, 0)
      invariant AllFollow(items, first, next)
      invariant g > 0 ==> Chained(items, c, first, next) && items[|items| - 1].what == Tile(g - 1, sizes[g - 1] - 1)
    {
      ghost var before := items;
      c := TeamStart(items, c, g, first, next);
      ghost var start := c;
      items, c := PlaceTeam(items, c, g, sizes[g], first, next);
      TeamAdded(before, start, items, g, sizes[g], next, roomy);
      AtWhenReady(items, c, g);
      TilesNext(sizes, g);
    }
    assert sizes[..|sizes|] == sizes;
    LayoutEnds(items, c, |sizes|, roomy);
  }

  lemma NothingFollows(first: real, next: real)
    ensures AllFollow([], first, next)
  {}

  /** What is known of the bars after g teams. */
  predicate BarsOk(items: seq<Item>, g: nat, roomy: bool) {
    if roomy then BarsFit(items) && BarsHaveCards(items, |items|) else g > 0 ==> LoneBar(items)
  }

  lemma LayoutBegins(first: real, roomy: bool)
    ensures At([], Cursor(0, first, 0, 0)) && Drawn([]) == Tiles([]) && BarsOk([], 0, roomy)
  {}

  lemma AtWhenReady(items: seq<Item>, c: Cursor, g: nat)
    requires Ready(items, c, g)
    ensures At(items, c)
  {}

  lemma LayoutEnds(items: seq<Item>, c: Cursor, g: nat, roomy: bool)
    requires At(items, c) && BarsOk(items, g, roomy)
    ensures CardsFit(items) && AllApart(items) && RowsWhole(items)
    ensures roomy ==> BarsFit(items)
    ensures g > 0 ==> (BarsHaveCards(items, |items|) <==> roomy)
  {
    hide AllApart, AboveRow;
    if g > 0 && !roomy { assert !BarHasCard(items, 0); }
  }

  lemma TeamAdded(before: seq<Item>, start: Cursor, items: seq<Item>, g: nat, size: nat, next: real, roomy: bool)
    requires Grown(before, Item(start.page, MARGIN, RowY(start.startY, start.row), Bar(g)), items, g, size, next)
    requires size > 0
    requires BarsOk(before, g, roomy)
    requires roomy ==> RowY(start.startY, start.row) + TEAM_HEADER + CARD_H <= BOTTOM
    requires !roomy && g == 0 ==> before == [] && RowY(start.startY, start.row) + TEAM_HEADER + CARD_H > BOTTOM
    ensures BarsOk(items, g + 1, roomy)
    ensures Drawn(items) == Drawn(before) + TileSeq(g, size)
  {
    hide Drawn, RowY;
    if roomy { TeamKeepsBars(before, items); }
  }

  /** The very first bar is separated from its card. */
  predicate LoneBar(items: seq<Item>) { |items| > 1 && items[0].what.Bar? && items[1].page > items[0].page }

  /** A team starts a fresh row, on a new page if its bar and first card do not fit this one. */
  method TeamStart(items: seq<Item>, c0: Cursor, ghost g: nat, first: real, ghost next: real) returns (c: Cursor)
    requires At(items, c0) && AllFollow(items, first, next)
    requires if g == 0 then items == [] && c0 == Cursor(0, first, 0, 0) else Chained(items, c0, first, next)
    requires g > 0 ==> items[|items| - 1].what.Tile? && items[|items| - 1].what.group == g - 1
    ensures At(items, c) && c.col == 0 && BarFollows(items, c, g, first, next)
    ensures first + TEAM_HEADER + CARD_H <= BOTTOM ==> RowY(c.startY, c.row) + TEAM_HEADER + CARD_H <= BOTTOM
    ensures c0 == Cursor(0, first, 0, 0) ==> RowY(c.startY, c.row) == first
  {
    Rows(first, 0);
    hide RowY, AllFollow;
    c := c0;
    if c.col != 0 {
      EndRow(items, c.page, RowY(c.startY, c.row));
      Rows(c.startY, c.row);
      c := c.(col := 0, row := c.row + 1);
    }
    if RowY(c.startY, c.row) + TEAM_HEADER + CARD_H > BOTTOM {
      TurnPage(items, c.page, RowY(c.startY, c.row), c.col, first);
      c := Cursor(c.page + 1, first, 0, 0);
    }
  }

  lemma TilesNext(sizes: seq<nat>, g: nat)
    requires g < |sizes|
    ensures Tiles(sizes[..g + 1]) == Tiles(sizes[..g]) + TileSeq(g, sizes[g])
  {
    assert sizes[..g + 1][..g] == sizes[..g];
  }

  lemma TeamKeepsBars(before: seq<Item>, items: seq<Item>)
    requires |before| < |items| && before <= items && BarsHaveCards(before, |before|) && BarsFit(before)
    requires items[|before|].what.Bar? && BarHasCard(items, |before|) && items[|before|].y + BAR_H <= BOTTOM
    requires forall i | |before| < i < |items| :: items[i].what.Tile?
    ensures BarsHaveCards(items, |items|) && BarsFit(items)
  {
    forall i | 0 <= i < |items| && items[i].what.Bar? ensures BarHasCard(items, i) {
      if i < |before| { assert BarHasCard(before, i); }
    }
  }
}
