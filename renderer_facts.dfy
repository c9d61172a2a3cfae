/**
 * Structural facts of the table, card, code, command and accordion renderers
 * of assets/js/components.js.
 */
module RendererFacts {
  import opened Wrappers
  import opened Strings
  import opened Markup
  import opened SectionIds
  import opened CodePaths
  import opened Renderers

  lemma ShareButtonCount(id: string, title: Option<string>, shared: bool, tag: string)
    ensures CountOpen(ShareButton(id, title, shared), tag) == if shared && (tag == "button" || tag == "i") then 1 else 0
  {
    if shared {
      var icon := El("i", [Attr("class", "fas fa-share-alt")], []);
      CountOpenEl("button", [Attr("onclick", "shareSection('" + id + "', '" + Show(title) + "')")], icon, tag);
      CountOpenEl("i", [Attr("class", "fas fa-share-alt")], [], tag);
    }
  }

  // table

  /** The number of cells over all rows. */
  function TotalCells(rows: seq<seq<string>>): nat
    decreases |rows|
  {
    if rows == [] then 0 else |rows[0]| + TotalCells(rows[1..])
  }

  lemma RowCount(row: seq<string>, tag: string)
    ensures CountOpen(RowMarkup(row), tag) == (if tag == "tr" then 1 else 0) + (if tag == "td" then |row| else 0)
  {
    var cells := Cells("td", row);
    forall i | 0 <= i < |cells|
      ensures CountOpen(cells[i], tag) == if tag == "td" then 1 else 0
    {
      CountOpenEl("td", [], [Val(row[i])], tag);
    }
    if tag == "td" { CountOpenJoinOnes(cells, tag); } else { CountOpenJoinZeros(cells, tag); }
    CountOpenEl("tr", [], Join(cells), tag);
  }

  lemma {:induction false} SumRows(rows: seq<seq<string>>, tag: string)
    ensures SumCounts(RowMarkups(rows), tag) == (if tag == "tr" then |rows| else 0) + (if tag == "td" then TotalCells(rows) else 0)
    decreases |rows|
  {
    if rows != [] {
      assert RowMarkups(rows)[1..] == RowMarkups(rows[1..]);
      RowCount(rows[0], tag);
      SumRows(rows[1..], tag);
    }
  }

  lemma TableMarkupCount(headers: seq<string>, rows: seq<seq<string>>, tag: string)
    requires tag == "th" || tag == "tr" || tag == "td"
    ensures CountOpen(TableMarkup(headers, rows), tag)
         == (if tag == "th" then |headers| else 0) + (if tag == "tr" then 1 + |rows| else 0)
          + (if tag == "td" then TotalCells(rows) else 0)
  {
    var cells := Cells("th", headers);
    forall i | 0 <= i < |cells|
      ensures CountOpen(cells[i], tag) == if tag == "th" then 1 else 0
    {
      CountOpenEl("th", [], [Val(headers[i])], tag);
    }
    if tag == "th" { CountOpenJoinOnes(cells, tag); } else { CountOpenJoinZeros(cells, tag); }
    var head := El("thead", [], El("tr", [], Join(cells)));
    CountOpenEl("tr", [], Join(cells), tag);
    CountOpenEl("thead", [], El("tr", [], Join(cells)), tag);
    CountOpenJoin(RowMarkups(rows), tag);
    SumRows(rows, tag);
    var body := El("tbody", [], Join(RowMarkups(rows)));
    CountOpenEl("tbody", [], Join(RowMarkups(rows)), tag);
    CountOpenAppend(head, body, tag);
    CountOpenEl("table", [], head + body, tag);
  }

  /**
   * The table renderer throws unless both `headers` and `rows` are present;
   * then it emits one header cell per header, one row per entry of `rows`
   * (plus the header row) and one cell per entry of each row, whatever the
   * row lengths are.
   */
  lemma TableStructure(d: Data, f: Fresh)
    ensures Table(d, f).Ok? <==> d.headers.Some? && d.rows.Some?
    ensures Table(d, f).Ok? ==>
      var m := Table(d, f).value.markup;
      && Table(d, f).value.loads == []
      && m[0] == Open("section", [Attr("id", GenerateSectionId(d.title, "table", f.sectionId))])
      && CountOpen(m, "th") == |d.headers.value|
      && CountOpen(m, "tr") == 1 + |d.rows.value|
      && CountOpen(m, "td") == TotalCells(d.rows.value)
  {
    if d.headers.Some? && d.rows.Some? {
      TableSectionCount(d, f, "th");
      TableSectionCount(d, f, "tr");
      TableSectionCount(d, f, "td");
      TableMarkupCount(d.headers.value, d.rows.value, "th");
      TableMarkupCount(d.headers.value, d.rows.value, "tr");
      TableMarkupCount(d.headers.value, d.rows.value, "td");
    }
  }

  /** Around the table itself, the section adds no cells or rows. */
  lemma TableSectionCount(d: Data, f: Fresh, tag: string)
    requires d.headers.Some? && d.rows.Some?
    requires tag == "th" || tag == "tr" || tag == "td"
    ensures Table(d, f).Ok?
    ensures CountOpen(Table(d, f).value.markup, tag) == CountOpen(TableMarkup(d.headers.value, d.rows.value), tag)
  {
    var tableId := GenerateSectionId(d.title, "table", f.sectionId);
    var table := TableMarkup(d.headers.value, d.rows.value);
    var share := ShareButton(tableId, d.title, d.shared.GetOr(false));
    assert Table(d, f) == Ok(Rendered(El("section", [Attr("id", tableId)], El("h3", [], [Val(Show(d.title))]) + share + table), []));
    HeadedSectionCount(tableId, "h3", d.title, d.shared.GetOr(false), table, tag);
    ShareButtonCount(tableId, d.title, d.shared.GetOr(false), tag);
  }

  /** A section made of a heading, the optional share button and `inner`. */
  lemma HeadedSectionCount(sectionId: string, heading: string, title: Option<string>, shared: bool, inner: Fragment, tag: string)
    requires tag != "section" && tag != heading
    ensures CountOpen(El("section", [Attr("id", sectionId)],
                        El(heading, [], [Val(Show(title))]) + ShareButton(sectionId, title, shared) + inner), tag)
         == CountOpen(ShareButton(sectionId, title, shared), tag) + CountOpen(inner, tag)
  {
    var h := El(heading, [], [Val(Show(title))]);
    var share := ShareButton(sectionId, title, shared);
    CountOpenEl(heading, [], [Val(Show(title))], tag);
    CountOpenText([Val(Show(title))], tag);
    CountOpenCat3(h, share, inner, tag);
    CountOpenEl("section", [Attr("id", sectionId)], h + share + inner, tag);
  }

  // cardSection

  /** The number of cards with a (truthy) image. */
  function ImageCount(cards: seq<Card>): nat
    decreases |cards|
  {
    if cards == [] then 0 else (if Truthy(cards[0].image) then 1 else 0) + ImageCount(cards[1..])
  }

  lemma CardCount(card: Card, tag: string)
    requires tag == "h3" || tag == "img"
    ensures CountOpen(CardMarkup(card), tag) == if tag == "h3" then 1 else if Truthy(card.image) then 1 else 0
  {
    var img: Fragment := if Truthy(card.image) then [Open("img", [Attr("src", card.image.value), Attr("alt", Show(card.title))])] else [];
    var h3 := El("h3", [], [Val(Show(card.title))]);
    var p := El("p", [], [Val(Show(card.description))]);
    if Truthy(card.image) {
      assert img == [Open("img", [Attr("src", card.image.value), Attr("alt", Show(card.title))])] + [];
      CountOpenAppend([Open("img", [Attr("src", card.image.value), Attr("alt", Show(card.title))])], [], tag);
    }
    CountOpenEl("h3", [], [Val(Show(card.title))], tag);
    CountOpenEl("p", [], [Val(Show(card.description))], tag);
    CountOpenCat3(img, h3, p, tag);
    CountOpenEl("div", [], img + h3 + p, tag);
  }

  lemma {:induction false} SumCards(cards: seq<Card>, tag: string)
    requires tag == "h3" || tag == "img"
    ensures SumCounts(CardMarkups(cards), tag) == if tag == "h3" then |cards| else ImageCount(cards)
    decreases |cards|
  {
    if cards != [] {
      assert CardMarkups(cards)[1..] == CardMarkups(cards[1..]);
      CardCount(cards[0], tag);
      SumCards(cards[1..], tag);
    }
  }

  /**
   * The card section throws without `cards`; otherwise its grid carries the
   * class for `min(columns, 3)` columns (2 when absent), every card has one
   * title heading, and exactly the cards with an image show one.
   */
  lemma CardSectionStructure(d: Data, f: Fresh)
    ensures CardSection(d, f).Ok? <==> d.cards.Some?
    ensures CardSection(d, f).Ok? ==>
      var m := CardSection(d, f).value.markup;
      && CardSection(d, f).value.loads == []
      && m[0] == Open("section", [Attr("id", GenerateSectionId(d.title, "cards", f.sectionId))])
      && Open("div", [Attr("class", GridClass(d.columns.GetOr(2)))]) in m
      && CountOpen(m, "h3") == |d.cards.value|
      && CountOpen(m, "img") == ImageCount(d.cards.value)
  {
    if d.cards.Some? {
      var sectionId := GenerateSectionId(d.title, "cards", f.sectionId);
      var cards := d.cards.value;
      var h2 := El("h2", [], [Val(Show(d.title))]);
      var share := ShareButton(sectionId, d.title, d.shared.GetOr(false));
      var grid := CardGrid(d.columns.GetOr(2), cards);
      assert grid[0] == Open("div", [Attr("class", GridClass(d.columns.GetOr(2)))]);
      assert grid[0] in h2 + share + grid;
      CardSectionCount(d, f, "h3");
      CardSectionCount(d, f, "img");
      CountOpenJoin(CardMarkups(cards), "h3");
      CountOpenJoin(CardMarkups(cards), "img");
      SumCards(cards, "h3");
      SumCards(cards, "img");
    }
  }

  /** Around the grid, the section adds no card headings or images. */
  lemma CardSectionCount(d: Data, f: Fresh, tag: string)
    requires d.cards.Some?
    requires tag == "h3" || tag == "img"
    ensures CardSection(d, f).Ok?
    ensures CountOpen(CardSection(d, f).value.markup, tag) == CountOpen(Join(CardMarkups(d.cards.value)), tag)
  {
    var sectionId := GenerateSectionId(d.title, "cards", f.sectionId);
    var cards := d.cards.value;
    var h2 := El("h2", [], [Val(Show(d.title))]);
    var share := ShareButton(sectionId, d.title, d.shared.GetOr(false));
    var grid := CardGrid(d.columns.GetOr(2), cards);
    CountOpenEl("h2", [], [Val(Show(d.title))], tag);
    ShareButtonCount(sectionId, d.title, d.shared.GetOr(false), tag);
    CountOpenEl("div", [Attr("class", GridClass(d.columns.GetOr(2)))], Join(CardMarkups(cards)), tag);
    CountOpenCat3(h2, share, grid, tag);
    CountOpenEl("section", [Attr("id", sectionId)], h2 + share + grid, tag);
  }

  /** The column count is capped above at 3 ... */
  lemma GridClassCapped(columns: int)
    requires columns >= 3
    ensures GridClass(columns) == GridClass(3)
  {
  }

  /** ... and only above: any two counts up to 3, zero and negative ones included, give different classes. */
  lemma GridClassDistinct(a: int, b: int)
    requires a <= 3 && b <= 3 && a != b
    ensures GridClass(a) != GridClass(b)
  {
    if GridClass(a) == GridClass(b) {
      PrefixCancel("grid-cols-1 md:grid-cols-", IntToString(a), IntToString(b));
      IntToStringInjective(a, b);
    }
  }

  // code

  /**
   * A code component without a (truthy) `filePath` renders the fixed error
   * fragment, independent of everything else, and schedules no load. With a
   * path it schedules exactly one load of that path, whose target elements
   * (the code element and its loader) are both in the markup, and it shows
   * the path's file name.
   */
  lemma CodeStructure(d: Data, f: Fresh, g: Fresh)
    ensures Code(d, f).Ok?
    ensures Code(d, f).value.loads == [] <==> !Truthy(d.filePath)
    ensures !Truthy(d.filePath) ==> Code(d, f) == Code(d, g) && Code(d, f).value.markup == CodeMissingFragment
    ensures Truthy(d.filePath) ==>
      var r := Code(d, f).value;
      && r.loads == [CodeLoad(d.filePath.value, f.codeId, "loader-" + f.codeId)]
      && Open("code", [Attr("id", f.codeId), Attr("class", "language-" + d.language.GetOr("javascript") + " line-numbers")]) in r.markup
      && Open("div", [Attr("id", "loader-" + f.codeId), Attr("class", "hidden")]) in r.markup
      && Val(GetFileName(d.filePath.value)) in r.markup
  {
    if Truthy(d.filePath) {
      var path := d.filePath.value;
      var containerId := GenerateSectionId(d.title, "code", f.sectionId);
      var body := CodeBody(d, path, f.codeId, containerId);
      var codeEl := CodeElement(d, f.codeId);
      assert codeEl[0] in El("pre", [], codeEl);
      assert El("div", [Attr("id", LoaderId(f.codeId)), Attr("class", "hidden")], [Lit("Loading code...")])[0] in body;
      assert codeEl[0] in body;
      assert Val(GetFileName(path)) in El("span", [], [Val(GetFileName(path))]);
      assert Val(GetFileName(path)) in body;
    }
  }

  // command

  lemma CommandLineCount(cmd: Command, terminal: string)
    ensures CountOpen(CommandLine(cmd, terminal), "button") == 1
  {
    var prompt := El("span", [], [Lit(PromptSymbol(terminal))]);
    var text := El("span", [], [Val(Show(cmd.command))]);
    var copy := El("button", [Attr("onclick", "copyToClipboard('" + Show(cmd.command) + "')")], []);
    var output := if Truthy(cmd.output) then El("div", [], [Val(cmd.output.value)]) else [];
    var comment := if Truthy(cmd.comment) then El("div", [], [Lit("# "), Val(cmd.comment.value)]) else [];
    CountOpenEl("span", [], [Lit(PromptSymbol(terminal))], "button");
    CountOpenText([Lit(PromptSymbol(terminal))], "button");
    CountOpenEl("span", [], [Val(Show(cmd.command))], "button");
    CountOpenText([Val(Show(cmd.command))], "button");
    CountOpenEl("button", [Attr("onclick", "copyToClipboard('" + Show(cmd.command) + "')")], [], "button");
    CommandExtrasCount(cmd);
    CountOpenCat3(prompt, text, copy, "button");
    CountOpenCat3(prompt + text + copy, output, comment, "button");
    CountOpenEl("div", [Attr("class", "mb-2 group")], prompt + text + copy + output + comment, "button");
  }

  /** The optional output and comment lines of a command hold no button. */
  lemma CommandExtrasCount(cmd: Command)
    ensures CountOpen(if Truthy(cmd.output) then El("div", [], [Val(cmd.output.value)]) else [], "button") == 0
    ensures CountOpen(if Truthy(cmd.comment) then El("div", [], [Lit("# "), Val(cmd.comment.value)]) else [], "button") == 0
  {
    if Truthy(cmd.output) {
      CountOpenEl("div", [], [Val(cmd.output.value)], "button");
      CountOpenText([Val(cmd.output.value)], "button");
    }
    if Truthy(cmd.comment) {
      CountOpenEl("div", [], [Lit("# "), Val(cmd.comment.value)], "button");
      CountOpenText([Lit("# "), Val(cmd.comment.value)], "button");
    }
  }

  /**
   * The command section throws without `commands`; otherwise it holds the
   * `<id>-content` container the copy-all button reads, and one copy button
   * per command beside the copy-all and the optional share buttons.
   */
  lemma CommandStructure(d: Data, f: Fresh)
    ensures CommandSection(d, f).Ok? <==> d.commands.Some?
    ensures CommandSection(d, f).Ok? ==>
      var commandId := GenerateSectionId(d.title, "command", f.sectionId);
      var m := CommandSection(d, f).value.markup;
      && CommandSection(d, f).value.loads == []
      && m[0] == Open("section", [Attr("id", commandId)])
      && Open("div", [Attr("id", commandId + "-content")]) in m
      && CountOpen(m, "button") == (if d.shared.GetOr(false) then 1 else 0) + 1 + |d.commands.value|
  {
    if d.commands.Some? {
      var commandId := GenerateSectionId(d.title, "command", f.sectionId);
      var terminal := d.variant.GetOr("terminal");
      var term := Terminal(commandId, terminal, d.commands.value);
      var body := El("h3", [], [Val(Show(d.title))]) + ShareButton(commandId, d.title, d.shared.GetOr(false))
                  + OptionalParagraph(d.description);
      TerminalButtons(commandId, terminal, d.commands.value);
      CommandSectionButtons(d, f);
      var content := Open("div", [Attr("id", commandId + "-content")]);
      assert content in body + term;
      assert CommandSection(d, f).value.markup == El("section", [Attr("id", commandId)], body + term);
    }
  }

  /** Around the terminal, the section adds only the share button. */
  lemma CommandSectionButtons(d: Data, f: Fresh)
    requires d.commands.Some?
    ensures CommandSection(d, f).Ok?
    ensures CountOpen(CommandSection(d, f).value.markup, "button")
         == (if d.shared.GetOr(false) then 1 else 0)
            + CountOpen(Terminal(GenerateSectionId(d.title, "command", f.sectionId), d.variant.GetOr("terminal"), d.commands.value), "button")
  {
    var commandId := GenerateSectionId(d.title, "command", f.sectionId);
    var h3 := El("h3", [], [Val(Show(d.title))]);
    var share := ShareButton(commandId, d.title, d.shared.GetOr(false));
    var desc := OptionalParagraph(d.description);
    var term := Terminal(commandId, d.variant.GetOr("terminal"), d.commands.value);
    assert h3 + share + desc + term == h3 + share + (desc + term);
    HeadedSectionCount(commandId, "h3", d.title, d.shared.GetOr(false), desc + term, "button");
    ShareButtonCount(commandId, d.title, d.shared.GetOr(false), "button");
    if Truthy(d.description) {
      CountOpenEl("p", [], [Val(d.description.value)], "button");
      CountOpenText([Val(d.description.value)], "button");
    }
    CountOpenAppend(desc, term, "button");
  }

  /** The terminal holds the `<id>-content` container, the copy-all button and one copy button per command. */
  lemma TerminalButtons(commandId: string, terminal: string, commands: seq<Command>)
    ensures Open("div", [Attr("id", commandId + "-content")]) in Terminal(commandId, terminal, commands)
    ensures CountOpen(Terminal(commandId, terminal, commands), "button") == 1 + |commands|
  {
    var lines := CommandLines(commands, terminal);
    forall i | 0 <= i < |lines|
      ensures CountOpen(lines[i], "button") == 1
    {
      CommandLineCount(commands[i], terminal);
    }
    CountOpenJoinOnes(lines, "button");
    var badge := El("span", [], [Val(Upper(terminal))]);
    var copyAll := El("button", [Attr("onclick", "copyCommandsToClipboard('" + commandId + "')")], []);
    var content := El("div", [Attr("id", commandId + "-content")], Join(lines));
    CountOpenEl("span", [], [Val(Upper(terminal))], "button");
    CountOpenEl("button", [Attr("onclick", "copyCommandsToClipboard('" + commandId + "')")], [], "button");
    CountOpenEl("div", [Attr("id", commandId + "-content")], Join(lines), "button");
    CountOpenCat3(badge, copyAll, content, "button");
    assert content[0] in badge + copyAll + content;
  }

  // accordionSection

  /** Item ids are distinct per index. */
  lemma ItemIdsDistinct(accordionId: string, i: nat, j: nat)
    requires i != j
    ensures ItemId(accordionId, i) != ItemId(accordionId, j)
  {
    if ItemId(accordionId, i) == ItemId(accordionId, j) {
      PrefixCancel(accordionId + "-item-", NatToString(i), NatToString(j));
      NatToStringInjective(i, j);
    }
  }

  /**
   * The accordion section throws without `items`; otherwise the group names
   * its id and `allowMultiple`, and every item renders a toggle button aimed
   * at its own item id and a content panel with that id that starts hidden.
   */
  lemma AccordionStructure(d: Data, f: Fresh)
    ensures AccordionSection(d, f).Ok? <==> d.items.Some?
    ensures AccordionSection(d, f).Ok? ==>
      var accordionId := GenerateSectionId(d.title, "accordion", f.sectionId);
      var allowMultiple := d.allowMultiple.GetOr(false);
      var m := AccordionSection(d, f).value.markup;
      && AccordionSection(d, f).value.loads == []
      && Open("div", [Attr("data-accordion", accordionId), Attr("data-multiple", BoolText(allowMultiple))]) in m
      && forall i: nat :: i < |d.items.value| ==>
           && Open("div", [Attr("id", ItemId(accordionId, i)), Attr("class", "accordion-content hidden")]) in m
           && Open("button", [Attr("class", "accordion-toggle"), Attr("data-target", ItemId(accordionId, i)),
                              Attr("onclick", "toggleAccordion('" + ItemId(accordionId, i) + "', '" + accordionId + "', "
                                              + BoolText(allowMultiple) + ")")]) in m
  {
    if d.items.Some? {
      var accordionId := GenerateSectionId(d.title, "accordion", f.sectionId);
      var allowMultiple := d.allowMultiple.GetOr(false);
      var items := d.items.value;
      var parts := ItemMarkups(accordionId, allowMultiple, items);
      var group := AccordionGroup(accordionId, allowMultiple, items);
      var head := El("h2", [], [Val(Show(d.title))]) + ShareButton(accordionId, d.title, d.shared.GetOr(false));
      var m := AccordionSection(d, f).value.markup;
      assert m == El("section", [Attr("id", accordionId)], head + group);
      assert group[0] in m;
      forall i: nat | i < |items|
        ensures Open("div", [Attr("id", ItemId(accordionId, i)), Attr("class", "accordion-content hidden")]) in m
        ensures Open("button", [Attr("class", "accordion-toggle"), Attr("data-target", ItemId(accordionId, i)),
                                Attr("onclick", "toggleAccordion('" + ItemId(accordionId, i) + "', '" + accordionId + "', "
                                                + BoolText(allowMultiple) + ")")]) in m
      {
        var itemId := ItemId(accordionId, i);
        var button := El("button", [Attr("class", "accordion-toggle"), Attr("data-target", itemId),
                                    Attr("onclick", "toggleAccordion('" + itemId + "', '" + accordionId + "', " + BoolText(allowMultiple) + ")")],
                         El("span", [], [Val(Show(items[i].title))]) + El("i", [Attr("class", "fas fa-chevron-down")], []));
        var panel := El("div", [Attr("id", itemId), Attr("class", "accordion-content hidden")], [Val(Show(items[i].content))]);
        assert parts[i] == El("div", [], button + panel);
        assert panel[0] in parts[i];
        assert button[0] in parts[i];
        InJoin(parts, i, panel[0]);
        InJoin(parts, i, button[0]);
      }
    }
  }

  // moduleHeader, info, material, video

  /** The module header always renders, under its `header-` id, and has no share button. */
  lemma ModuleHeaderShape(d: Data, f: Fresh)
    ensures ModuleHeader(d, f).Ok? && ModuleHeader(d, f).value.loads == []
    ensures ModuleHeader(d, f).value.markup[0] == Open("section", [Attr("id", GenerateSectionId(d.title, "header", f.sectionId))])
    ensures CountOpen(ModuleHeader(d, f).value.markup, "button") == 0
  {
    var name := El("div", [], [Val(Show(d.moduleName))]);
    var h1 := El("h1", [], [Val(Show(d.title))]);
    var p := El("p", [], [Val(Show(d.description))]);
    CountOpenEl("div", [], [Val(Show(d.moduleName))], "button");
    CountOpenEl("h1", [], [Val(Show(d.title))], "button");
    CountOpenEl("p", [], [Val(Show(d.description))], "button");
    CountOpenText([Val(Show(d.moduleName))], "button");
    CountOpenText([Val(Show(d.title))], "button");
    CountOpenText([Val(Show(d.description))], "button");
    CountOpenCat3(name, h1, p, "button");
    CountOpenEl("section", [Attr("id", GenerateSectionId(d.title, "header", f.sectionId))], name + h1 + p, "button");
  }

  /** An info box always renders, and has a share button only when `shared` is given as true. */
  lemma InfoShape(d: Data, f: Fresh)
    ensures Info(d, f).Ok? && Info(d, f).value.loads == []
    ensures CountOpen(Info(d, f).value.markup, "button") == if d.shared == Some(true) then 1 else 0
  {
    var infoId := GenerateSectionId(d.title, "info", f.sectionId);
    var h3 := El("h3", [], [Val(Show(d.title))]);
    var body := El("div", [], [Val(Show(d.content))]);
    var share := ShareButton(infoId, d.title, d.shared.GetOr(false));
    CountOpenEl("h3", [], [Val(Show(d.title))], "button");
    CountOpenEl("div", [], [Val(Show(d.content))], "button");
    CountOpenText([Val(Show(d.title))], "button");
    CountOpenText([Val(Show(d.content))], "button");
    ShareButtonCount(infoId, d.title, d.shared.GetOr(false), "button");
    CountOpenCat3(h3, body, share, "button");
    CountOpenEl("div", [Attr("id", infoId)], h3 + body + share, "button");
  }

  /**
   * A material section always renders. Its heading is the `level` tag, `h2`
   * when absent, and it has a share button only when `shared` is given as true.
   */
  lemma MaterialShape(d: Data, f: Fresh)
    ensures Material(d, f).Ok? && Material(d, f).value.loads == []
    ensures Material(d, f).value.markup[1] == Open(d.level.GetOr("h2"), [])
    ensures d.level.GetOr("h2") != "button" ==>
              CountOpen(Material(d, f).value.markup, "button") == if d.shared == Some(true) then 1 else 0
  {
    var materialId := GenerateSectionId(d.title, "material", f.sectionId);
    var level := d.level.GetOr("h2");
    var body := El("div", [], [Val(Show(d.content))]);
    if level != "button" {
      HeadedSectionCount(materialId, level, d.title, d.shared.GetOr(false), body, "button");
      CountOpenEl("div", [], [Val(Show(d.content))], "button");
      CountOpenText([Val(Show(d.content))], "button");
      ShareButtonCount(materialId, d.title, d.shared.GetOr(false), "button");
    }
  }

  /**
   * A video section always renders, embeds the YouTube player for `videoId`,
   * and has a share button unless `shared` is given as false: sharing defaults
   * to on here, unlike info and material.
   */
  lemma VideoShape(d: Data, f: Fresh)
    ensures Video(d, f).Ok? && Video(d, f).value.loads == []
    ensures Open("iframe", [Attr("src", "https://www.youtube.com/embed/" + Show(d.videoId) + "?rel=0&modestbranding=1"), Attr("title", Show(d.title))])
              in Video(d, f).value.markup
    ensures CountOpen(Video(d, f).value.markup, "button") == if d.shared == Some(false) then 0 else 1
  {
    var videoId := GenerateSectionId(d.title, "video", f.sectionId);
    var desc := OptionalParagraph(d.description);
    var frame := El("iframe", [Attr("src", EmbedUrl(d.videoId)), Attr("title", Show(d.title))], []);
    var h3 := El("h3", [], [Val(Show(d.title))]);
    var share := ShareButton(videoId, d.title, d.shared.GetOr(true));
    assert h3 + share + desc + frame == h3 + share + (desc + frame);
    assert frame[0] in desc + frame;
    HeadedSectionCount(videoId, "h3", d.title, d.shared.GetOr(true), desc + frame, "button");
    ShareButtonCount(videoId, d.title, d.shared.GetOr(true), "button");
    if Truthy(d.description) {
      CountOpenEl("p", [], [Val(d.description.value)], "button");
      CountOpenText([Val(d.description.value)], "button");
    }
    CountOpenEl("iframe", [Attr("src", EmbedUrl(d.videoId)), Attr("title", Show(d.title))], [], "button");
    CountOpenAppend(desc, frame, "button");
  }
}
