/**
 * The component renderers of assets/js/components.js (`ComponentRenderers`):
 * each takes a component's `data` record and yields its markup, plus, for the
 * code variant, the deferred load it schedules. Random ids the renderers draw
 * through `generateId` come in as a `Fresh` value.
 */
module Renderers {
  import opened Wrappers
  import opened Strings
  import opened Markup
  import opened SectionIds
  import opened CodePaths

  datatype Command = Command(command: Option<string>, output: Option<string>, comment: Option<string>)
  datatype Card = Card(title: Option<string>, description: Option<string>, image: Option<string>)
  datatype Item = Item(title: Option<string>, content: Option<string>)

  /**
   * A component's `data` object: every field may be absent (`None`). `variant`
   * is the JSON field `type` (info style or terminal kind).
   */
  datatype Data = Data(
    title: Option<string>,
    moduleName: Option<string>,
    description: Option<string>,
    content: Option<string>,
    theme: Option<string>,
    variant: Option<string>,
    level: Option<string>,
    shared: Option<bool>,
    filePath: Option<string>,
    language: Option<string>,
    commands: Option<seq<Command>>,
    cards: Option<seq<Card>>,
    columns: Option<int>,
    items: Option<seq<Item>>,
    allowMultiple: Option<bool>,
    videoId: Option<string>,
    headers: Option<seq<string>>,
    rows: Option<seq<seq<string>>>)

  const NoData := Data(None, None, None, None, None, None, None, None, None,
                       None, None, None, None, None, None, None, None, None)

  /** The values `generateId` returns during one render: for the section-id fallback and for the code element. */
  datatype Fresh = Fresh(sectionId: string, codeId: string)

  /** A code file load scheduled by the code renderer (the `setTimeout` at components.js:219). */
  datatype CodeLoad = CodeLoad(filePath: string, codeId: string, loaderId: string)

  datatype Rendered = Rendered(markup: Fragment, loads: seq<CodeLoad>)

  /** A `TypeError` thrown while rendering, naming the value that could not be used (an absent array or object). */
  datatype Fault = TypeError(culprit: string)

  type Outcome = Result<Rendered, Fault>

  /** Template-literal interpolation of a possibly absent string. */
  function Show(o: Option<string>): string {
    o.GetOr("undefined")
  }

  /** JavaScript truthiness of a possibly absent string. */
  predicate Truthy(o: Option<string>) {
    o.Some? && o.value != []
  }

  function BoolText(b: bool): string {
    if b then "true" else "false"
  }

  /** The share button the renderers add when `shared` holds. */
  function ShareButton(sectionId: string, title: Option<string>, shared: bool): Fragment {
    if shared then
      El("button", [Attr("onclick", "shareSection('" + sectionId + "', '" + Show(title) + "')")],
         El("i", [Attr("class", "fas fa-share-alt")], []))
    else []
  }

  /** `${description ? `<p>${description}</p>` : ''}` */
  function OptionalParagraph(text: Option<string>): Fragment {
    if Truthy(text) then El("p", [], [Val(text.value)]) else []
  }

  // moduleHeader

  function ModuleHeader(d: Data, f: Fresh): Outcome {
    var headerId := GenerateSectionId(d.title, "header", f.sectionId);
    Ok(Rendered(
      El("section", [Attr("id", headerId)],
        El("div", [], [Val(Show(d.moduleName))])
        + El("h1", [], [Val(Show(d.title))])
        + El("p", [], [Val(Show(d.description))])),
      []))
  }

  // info

  function Info(d: Data, f: Fresh): Outcome {
    var infoId := GenerateSectionId(d.title, "info", f.sectionId);
    Ok(Rendered(
      El("div", [Attr("id", infoId)],
        El("h3", [], [Val(Show(d.title))])
        + El("div", [], [Val(Show(d.content))])
        + ShareButton(infoId, d.title, d.shared.GetOr(false))),
      []))
  }

  // material

  function Material(d: Data, f: Fresh): Outcome {
    var materialId := GenerateSectionId(d.title, "material", f.sectionId);
    var level := d.level.GetOr("h2");
    Ok(Rendered(
      El("section", [Attr("id", materialId)],
        El(level, [], [Val(Show(d.title))])
        + ShareButton(materialId, d.title, d.shared.GetOr(false))
        + El("div", [], [Val(Show(d.content))])),
      []))
  }

  // code

  const CodeMissingFragment: Fragment :=
    El("div", [], El("p", [], [Lit("Error: filePath is required for code component")]))

  function LoaderId(codeId: string): string {
    "loader-" + codeId
  }

  function CodeBody(d: Data, filePath: string, codeId: string, containerId: string): Fragment {
    El("h3", [], [Val(Show(d.title))])
    + OptionalParagraph(d.description)
    + ShareButton(containerId, d.title, d.shared.GetOr(true))
    + El("span", [], [Val(GetFileName(filePath))])
    + El("button", [Attr("onclick", "downloadCodeFile('" + filePath + "', '" + codeId + "')")], [])
    + El("button", [Attr("onclick", "copyCodeToClipboard('" + codeId + "')")], [])
    + El("button", [Attr("onclick", "toggleFullscreen('" + codeId + "')")], [])
    + El("div", [Attr("id", LoaderId(codeId)), Attr("class", "hidden")], [Lit("Loading code...")])
    + El("pre", [], CodeElement(d, codeId))
  }

  function CodeElement(d: Data, codeId: string): Fragment {
    El("code", [Attr("id", codeId), Attr("class", "language-" + d.language.GetOr("javascript") + " line-numbers")],
       [Lit("Loading...")])
  }

  function Code(d: Data, f: Fresh): Outcome {
    if !Truthy(d.filePath) then Ok(Rendered(CodeMissingFragment, []))
    else
      var filePath := d.filePath.value;
      var containerId := GenerateSectionId(d.title, "code", f.sectionId);
      Ok(Rendered(
        El("div", [Attr("id", containerId)], CodeBody(d, filePath, f.codeId, containerId)),
        [CodeLoad(filePath, f.codeId, LoaderId(f.codeId))]))
  }

  // command

  function PromptSymbol(terminal: string): string {
    if terminal == "terminal" then "$"
    else if terminal == "powershell" then "PS>"
    else if terminal == "cmd" then "C:\\>"
    else "undefined"
  }

  function CommandLine(cmd: Command, terminal: string): Fragment {
    El("div", [Attr("class", "mb-2 group")],
      El("span", [], [Lit(PromptSymbol(terminal))])
      + El("span", [], [Val(Show(cmd.command))])
      + El("button", [Attr("onclick", "copyToClipboard('" + Show(cmd.command) + "')")], [])
      + (if Truthy(cmd.output) then El("div", [], [Val(cmd.output.value)]) else [])
      + (if Truthy(cmd.comment) then El("div", [], [Lit("# "), Val(cmd.comment.value)]) else []))
  }

  function CommandLines(commands: seq<Command>, terminal: string): (r: seq<Fragment>)
    ensures |r| == |commands|
    ensures forall i :: 0 <= i < |commands| ==> r[i] == CommandLine(commands[i], terminal)
  {
    seq(|commands|, i requires 0 <= i < |commands| => CommandLine(commands[i], terminal))
  }

  function CommandSection(d: Data, f: Fresh): Outcome {
    if d.commands.None? then Err(TypeError("commands"))
    else
      var commandId := GenerateSectionId(d.title, "command", f.sectionId);
      var terminal := d.variant.GetOr("terminal");
      Ok(Rendered(
        El("section", [Attr("id", commandId)],
          El("h3", [], [Val(Show(d.title))])
          + ShareButton(commandId, d.title, d.shared.GetOr(false))
          + OptionalParagraph(d.description)
          + Terminal(commandId, terminal, d.commands.value)),
        []))
  }

  function Terminal(commandId: string, terminal: string, commands: seq<Command>): Fragment {
    El("span", [], [Val(Upper(terminal))])
    + El("button", [Attr("onclick", "copyCommandsToClipboard('" + commandId + "')")], [])
    + El("div", [Attr("id", commandId + "-content")], Join(CommandLines(commands, terminal)))
  }

  // cardSection

  function Min(a: int, b: int): int {
    if a < b then a else b
  }

  /** The responsive grid class: `md:grid-cols-${Math.min(columns, 3)}`. */
  function GridClass(columns: int): string {
    "grid-cols-1 md:grid-cols-" + IntToString(Min(columns, 3))
  }

  function CardMarkup(card: Card): Fragment {
    El("div", [],
      (if Truthy(card.image) then [Open("img", [Attr("src", card.image.value), Attr("alt", Show(card.title))])] else [])
      + El("h3", [], [Val(Show(card.title))])
      + El("p", [], [Val(Show(card.description))]))
  }

  function CardSection(d: Data, f: Fresh): Outcome {
    if d.cards.None? then Err(TypeError("cards"))
    else
      var sectionId := GenerateSectionId(d.title, "cards", f.sectionId);
      var cards := d.cards.value;
      Ok(Rendered(
        El("section", [Attr("id", sectionId)],
          El("h2", [], [Val(Show(d.title))])
          + ShareButton(sectionId, d.title, d.shared.GetOr(false))
          + CardGrid(d.columns.GetOr(2), cards)),
        []))
  }

  function CardMarkups(cards: seq<Card>): (r: seq<Fragment>)
    ensures |r| == |cards|
    ensures forall i :: 0 <= i < |cards| ==> r[i] == CardMarkup(cards[i])
  {
    seq(|cards|, i requires 0 <= i < |cards| => CardMarkup(cards[i]))
  }

  function CardGrid(columns: int, cards: seq<Card>): Fragment {
    El("div", [Attr("class", GridClass(columns))], Join(CardMarkups(cards)))
  }

  // accordionSection

  /** `${accordionId}-item-${index}` */
  function ItemId(accordionId: string, index: nat): string {
    accordionId + "-item-" + NatToString(index)
  }

  function ItemMarkup(accordionId: string, allowMultiple: bool, index: nat, item: Item): Fragment {
    var itemId := ItemId(accordionId, index);
    El("div", [],
      El("button", [Attr("class", "accordion-toggle"), Attr("data-target", itemId),
                    Attr("onclick", "toggleAccordion('" + itemId + "', '" + accordionId + "', " + BoolText(allowMultiple) + ")")],
         El("span", [], [Val(Show(item.title))]) + El("i", [Attr("class", "fas fa-chevron-down")], []))
      + El("div", [Attr("id", itemId), Attr("class", "accordion-content hidden")], [Val(Show(item.content))]))
  }

  function ItemMarkups(accordionId: string, allowMultiple: bool, items: seq<Item>): (r: seq<Fragment>)
    ensures |r| == |items|
    ensures forall i :: 0 <= i < |items| ==> r[i] == ItemMarkup(accordionId, allowMultiple, i, items[i])
  {
    seq(|items|, i requires 0 <= i < |items| => ItemMarkup(accordionId, allowMultiple, i, items[i]))
  }

  function AccordionSection(d: Data, f: Fresh): Outcome {
    if d.items.None? then Err(TypeError("items"))
    else
      var accordionId := GenerateSectionId(d.title, "accordion", f.sectionId);
      var allowMultiple := d.allowMultiple.GetOr(false);
      Ok(Rendered(
        El("section", [Attr("id", accordionId)],
          El("h2", [], [Val(Show(d.title))])
          + ShareButton(accordionId, d.title, d.shared.GetOr(false))
          + AccordionGroup(accordionId, allowMultiple, d.items.value)),
        []))
  }

  function AccordionGroup(accordionId: string, allowMultiple: bool, items: seq<Item>): Fragment {
    El("div", [Attr("data-accordion", accordionId), Attr("data-multiple", BoolText(allowMultiple))],
       Join(ItemMarkups(accordionId, allowMultiple, items)))
  }

  // video

  function EmbedUrl(videoId: Option<string>): string {
    "https://www.youtube.com/embed/" + Show(videoId) + "?rel=0&modestbranding=1"
  }

  function Video(d: Data, f: Fresh): Outcome {
    var videoContainerId := GenerateSectionId(d.title, "video", f.sectionId);
    Ok(Rendered(
      El("section", [Attr("id", videoContainerId)],
        El("h3", [], [Val(Show(d.title))])
        + ShareButton(videoContainerId, d.title, d.shared.GetOr(true))
        + OptionalParagraph(d.description)
        + El("iframe", [Attr("src", EmbedUrl(d.videoId)), Attr("title", Show(d.title))], [])),
      []))
  }

  // table

  /** One `<tag>` cell per text, in order: the header cells and the cells of one row. */
  function Cells(tag: string, texts: seq<string>): (r: seq<Fragment>)
    ensures |r| == |texts|
    ensures forall i :: 0 <= i < |texts| ==> r[i] == El(tag, [], [Val(texts[i])])
  {
    seq(|texts|, i requires 0 <= i < |texts| => El(tag, [], [Val(texts[i])]))
  }

  function RowMarkup(row: seq<string>): Fragment {
    El("tr", [], Join(Cells("td", row)))
  }

  function RowMarkups(rows: seq<seq<string>>): (r: seq<Fragment>)
    ensures |r| == |rows|
    ensures forall i :: 0 <= i < |rows| ==> r[i] == RowMarkup(rows[i])
  {
    seq(|rows|, i requires 0 <= i < |rows| => RowMarkup(rows[i]))
  }

  function TableMarkup(headers: seq<string>, rows: seq<seq<string>>): Fragment {
    El("table", [],
      El("thead", [], El("tr", [], Join(Cells("th", headers))))
      + El("tbody", [], Join(RowMarkups(rows))))
  }

  function Table(d: Data, f: Fresh): Outcome {
    if d.headers.None? then Err(TypeError("headers"))
    else if d.rows.None? then Err(TypeError("rows"))
    else
      var tableId := GenerateSectionId(d.title, "table", f.sectionId);
      Ok(Rendered(
        El("section", [Attr("id", tableId)],
          El("h3", [], [Val(Show(d.title))])
          + ShareButton(tableId, d.title, d.shared.GetOr(false))
          + TableMarkup(d.headers.value, d.rows.value)),
        []))
  }
}
