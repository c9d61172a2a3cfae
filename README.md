# Learning-site front end: slugs, component dispatch, accordion, routing, theme

This project models the browser-side core of a static learning site in Dafny and proves properties of the model. The site is written as three scripts:

- `assets/js/components.js` holds:
  - the section-identifier slugger and the file-path helpers of the code component;
  - the component renderers, with the registry that dispatches on a component's `type` and the batch renderer;
  - the accordion toggle.
- `assets/js/main.js` holds:
  - the page-type classifier, the sidebar's active-link test and the recursive sidebar renderer;
  - the breadcrumb, the module-number extraction of a module page and its fallback;
  - the bookmark toggle and the module card.
- `assets/js/theme.js` holds the light/dark theme state and its toggle icons.

HTML is modelled as a sequence of tokens (`Markup.Token`):
- an opening tag with its attributes;
- a closing tag;
- fixed template text (`Lit`);
- interpolated data (`Val`).

Layout-only CSS classes are dropped. The classes the behaviour depends on are kept: `hidden`, `accordion-content`, the grid column class, the star highlight and the active-link class.

A component's JSON data is a record of optional fields. An absent field is `None`, which interpolates as the text `undefined`, as a template literal does.

A renderer returns either the markup with the code loads it schedules, or the `TypeError` it throws. It throws when it calls `.map` on an absent array (`headers`, `rows`, `cards`, `items`, `commands`) or when it destructures absent `data`.

Fresh random identifiers come from a supply indexed by a component's position in the batch, so the model stays deterministic. They stand for the values of `generateId` (random and clock-based). The code renderer takes one for its code element when it has a file path. Every other renderer takes one only through `generateSectionId`, when the title is absent or empty.

State the scripts change in place is modelled with classes:
- the accordion's panel and chevron class lists are two arrays;
- the bookmark list is a `seq` field;
- the breadcrumb container is a class;
- the document's theme state is a class.

Modules and files:

| module | file | models |
|---|---|---|
| `Wrappers` | wrappers.dfy | `Option`, `Result` |
| `Strings` | strings.dfy | prefix/suffix/substring tests, ASCII case mapping, `split(...).pop()`, decimal notation |
| `SectionIds` | section_id.dfy | `generateSectionId` |
| `CodePaths` | code_paths.dfy | `getFileName`, `readCodeFile`, `downloadCodeFile` |
| `Markup` | markup.dfy | tokens, elements, `join('')`, tag counting |
| `Renderers` | renderers.dfy | the nine `ComponentRenderers` entries |
| `Dispatch` | dispatch.dfy | `renderComponent`, `renderComponents` |
| `RendererFacts` | renderer_facts.dfy | structure of the table, card, code, command and accordion renderers |
| `Accordion` | accordion.dfy | `toggleAccordion` |
| `Routing` | routing.dfy | `determinePageType`, `isActiveNavItem`, the `modul(\d+)\.html` match |
| `Navigation` | navigation.dfy | `renderNavigationItems`, `updateBreadcrumb`, `initializeModulePage` |
| `Progress` | bookmarks.dfy | `toggleBookmark`, `renderModuleCard` |
| `Theme` | theme.dfy | `initializeTheme`, `toggleTheme`, `updateThemeToggleIcon` |

## Model

| member | source | states |
|---|---|---|
| SectionIds.GenerateSectionId | assets/js/components.js:23-35 | An absent or empty name yields the fresh id. Otherwise the result is `type + "-" + clean(name)` for a non-empty type, even when the cleaned part is empty, and `clean(name)` alone otherwise; the cleaned part is always a slug. |
| SectionIds.Clean | assets/js/components.js:26-31 | The five-step cleaning. Its lemmas state that every result is a slug, that a slug is its own cleaning, and that cleaning is idempotent. |
| SectionIds.CleanIsSlug | assets/js/components.js:26-31 | For every title, the cleaned form has only `a-z`, `0-9` and `-`, never `--`, and no `-` at either edge. |
| SectionIds.CollapseHyphensNoDouble | assets/js/components.js:29-30 | Replacing each run of a class that includes `-` by one `-` leaves no two adjacent hyphens. |
| SectionIds.CollapseKeepsSlugChars | assets/js/components.js:29-30 | Collapsing runs keeps slug characters and turns the run characters into `-`. |
| SectionIds.TrimEdgesIsSlug | assets/js/components.js:31 | Dropping one edge hyphen from each end of a hyphen-clean string leaves a slug. |
| SectionIds.CleanOfSlug | assets/js/components.js:26-31 | A string that is already a slug is unchanged by cleaning. |
| SectionIds.CleanIdempotent | assets/js/components.js:26-31 | Cleaning twice is cleaning once. |
| SectionIds.HeaderOfPunctuation | assets/js/components.js:23-34 | Every non-empty title with no kept character (after lower-casing, nothing in `a-z`, `0-9`, white space or `-`) and every non-empty type `P` give `P-`, for instance `header-`; no fresh id is taken. |
| SectionIds.SameTitleSameId | assets/js/components.js:23-35 | With a non-empty title the fresh id plays no part, so equal titles of the same type collide. |
| CodePaths.GetFileName | assets/js/components.js:18-21 | An empty path gives `code.txt`. Otherwise the result is a suffix of the path with no `/` or `\`, preceded by a separator unless it is the whole path. |
| CodePaths.FileNameOfPlainName | assets/js/components.js:18-21 | A path with neither separator is returned whole. |
| CodePaths.FileNameOfDirectory | assets/js/components.js:18-21 | A path ending in a separator gives the empty name, not `code.txt`. |
| CodePaths.NormalizePath | assets/js/components.js:44-52 | The normalised path starts with `/` or `http`, and a path already starting with either is unchanged. |
| CodePaths.NormalizeIdempotent | assets/js/components.js:44-52 | Normalising a normalised path changes nothing. |
| CodePaths.NormalizeDotSlash | assets/js/components.js:44-52 | `./x` and `x` normalise to the same `/x`. |
| CodePaths.ReadCodeFile | assets/js/components.js:38-65 | A 2xx response yields the body. Any other response or a network error yields exactly the error comment: the fixed prefix, the file name, a new comment line and the error message. |
| CodePaths.ReadReportsStatus | assets/js/components.js:56-64 | A non-2xx status is reported as `HTTP <status>: <statusText>`. |
| CodePaths.DownloadCodeFile | assets/js/components.js:631-650 | No download iff the path is empty; otherwise the download name is the file name. |
| CodePaths.DownloadAgreesWithRead | assets/js/components.js:635-640 | The download link is exactly the path the read fetches. |
| Dispatch.RenderComponent | assets/js/components.js:581-600 | The dispatcher with an own-key registry lookup. Its lemmas state the unknown-type notice, the id wrapper and the renderer passthrough. |
| Dispatch.RenderFrom | assets/js/components.js:602-604 | The in-order fold over a batch from position `k`, generic in the per-component renderer. Its lemmas state the empty and singleton cases, splitting over concatenation, and success iff every component succeeds. |
| Dispatch.RenderComponents | assets/js/components.js:602-604 | `renderComponents`: the fold from position 0 with `Dispatch.RenderComponent`. |
| Dispatch.RenderComponentAsWritten | assets/js/components.js:581-600 | The dispatcher with the lookup as written, which also finds inherited object members. It agrees with `Dispatch.RenderComponent` except on those names. |
| Dispatch.UnknownTypeIsNotice | assets/js/components.js:581-592 | A type that is not a registry key yields a notice containing the type name and no load. It is the same for every data value, id and id supply, so no renderer ran and no wrapper was applied. |
| Dispatch.IdWraps | assets/js/components.js:594-598 | With a truthy id, the output is the renderer's output between an opening `div` (carrying the id, `component-container` and the type) and its closing tag, with the same loads. |
| Dispatch.NoIdIsRendererOutput | assets/js/components.js:594-599 | Without a truthy id, the outcome is the renderer's outcome exactly, errors included. |
| Dispatch.AbsentDataThrows | assets/js/components.js:582-594 | A registered type with absent `data` throws. |
| Dispatch.EmptyBatch | assets/js/components.js:602-604 | An empty batch renders to nothing and schedules nothing. |
| Dispatch.SingletonBatch | assets/js/components.js:602-604 | A one-element batch is that component's outcome. |
| Dispatch.CombineAssociative | assets/js/components.js:602-604 | Concatenating outcomes is associative. |
| Dispatch.RenderAppend | assets/js/components.js:602-604 | Rendering `a + b` is rendering `a`, then rendering `b` from the next position, then concatenating. Output order is input order, with no separator. |
| Dispatch.BatchOkIffAllOk | assets/js/components.js:602-604 | A batch renders iff every component in it renders; one throw fails the whole batch. |
| Dispatch.AsWrittenAgreesOnOtherNames | assets/js/components.js:581-600 | Except for the inherited names, the lookup as written agrees with the own-key lookup. |
| Dispatch.InheritedNamesSkipNotice | assets/js/components.js:583-594 | `toString` is not a registry key, yet as written it renders `[object Object]` instead of the notice. `__proto__` throws. |
| Renderers.ModuleHeader | assets/js/components.js:73-101 | The `moduleHeader` renderer. Its properties are stated by `RendererFacts.ModuleHeaderShape`. |
| Renderers.Info | assets/js/components.js:106-148 | The `info` renderer. Its properties are stated by `RendererFacts.InfoShape`. |
| Renderers.Material | assets/js/components.js:153-191 | The `material` renderer. Its properties are stated by `RendererFacts.MaterialShape`. |
| Renderers.Code | assets/js/components.js:196-299 | The `code` renderer with its scheduled load. Its properties are stated by `RendererFacts.CodeStructure`. |
| Renderers.CommandSection | assets/js/components.js:304-388 | The `command` renderer. Its properties are stated by `RendererFacts.CommandStructure`. |
| Renderers.CardSection | assets/js/components.js:393-432 | The `cardSection` renderer. Its properties are stated by `RendererFacts.CardSectionStructure`. |
| Renderers.AccordionSection | assets/js/components.js:437-484 | The `accordionSection` renderer. Its properties are stated by `RendererFacts.AccordionStructure`. |
| Renderers.Video | assets/js/components.js:489-525 | The `video` renderer. Its properties are stated by `RendererFacts.VideoShape`. |
| Renderers.Table | assets/js/components.js:530-575 | The `table` renderer. Its properties are stated by `RendererFacts.TableStructure`. |
| RendererFacts.ModuleHeaderShape | assets/js/components.js:73-101 | The module header always renders and schedules nothing. It opens with the section carrying the `header-` id of its title, and it has no button. |
| RendererFacts.InfoShape | assets/js/components.js:106-148 | An info box always renders and schedules nothing. It has a share button iff `shared` is given as true, since the default is `false`. |
| RendererFacts.MaterialShape | assets/js/components.js:153-191 | A material section always renders and schedules nothing. Its heading is the `level` tag, `h2` when absent. When the `level` tag is not `button`, it has a share button iff `shared` is given as true. |
| RendererFacts.VideoShape | assets/js/components.js:489-525 | A video section always renders and schedules nothing. It embeds the YouTube player URL for `videoId`. It has a share button unless `shared` is given as false, since the default is `true`. |
| RendererFacts.ShareButtonCount | assets/js/components.js:138-144 | The share button, with its icon, appears iff sharing is on. |
| RendererFacts.TableStructure | assets/js/components.js:530-575 | The table renders iff `headers` and `rows` are present, and schedules no load. It has one `th` per header, one `tr` per row plus the header row, and one `td` per cell of every row, with no arity check against the headers. |
| RendererFacts.TableMarkupCount | assets/js/components.js:557-569 | The same counts for the table element alone. |
| RendererFacts.RowCount | assets/js/components.js:564-568 | A row is one `tr` with one `td` per entry. |
| RendererFacts.SumRows | assets/js/components.js:562-569 | The rows together hold one `tr` per row and one `td` per cell. |
| RendererFacts.CardSectionStructure | assets/js/components.js:393-432 | The card section renders iff `cards` is present. It carries the grid class for `min(columns, 3)`, has one heading per card and one image per card with a truthy image. |
| RendererFacts.CardCount | assets/js/components.js:418-427 | A card has one heading, and an image iff its image is truthy. |
| RendererFacts.SumCards | assets/js/components.js:418-428 | The cards together have one heading each and as many images as cards with an image. |
| RendererFacts.GridClassCapped | assets/js/components.js:396 | Any column count of 3 or more gives the 3-column class. |
| RendererFacts.GridClassDistinct | assets/js/components.js:396 | Different counts up to 3 (including zero and negative ones) give different classes: the count is capped above only. |
| RendererFacts.CodeStructure | assets/js/components.js:196-298 | A code component always renders. It schedules a load iff its `filePath` is truthy. Without one it is the fixed missing-path fragment whatever the fresh ids. With one it schedules exactly the load of that path into the code element, and shows the loader, the code element and the file name. |
| RendererFacts.CommandStructure | assets/js/components.js:304-388 | The command section renders iff `commands` is present. It has the content container `<id>-content`, and one button per command plus the copy-all button, plus the share button when sharing. |
| RendererFacts.CommandLineCount | assets/js/components.js:362-381 | Each command line has exactly one copy button. |
| RendererFacts.TerminalButtons | assets/js/components.js:341-384 | The terminal has its content container and `1 + |commands|` buttons. |
| RendererFacts.ItemIdsDistinct | assets/js/components.js:462 | Item ids `<accordionId>-item-<i>` are distinct for distinct indices. |
| RendererFacts.AccordionStructure | assets/js/components.js:437-484 | The accordion section renders iff `items` is present, and carries the group marker. Every item has its hidden content panel under its id, and a toggle button targeting that id. |
| Accordion.ToggledContent | assets/js/components.js:865-900 | The panels after a toggle: the target flips, and the others close unless `allowMultiple`. Its lemmas state the single-open and multiple-open behaviour. |
| Accordion.ToggledIcons | assets/js/components.js:880-911 | The chevrons after a toggle, which keep agreeing with the panels (`Accordion.ToggleKeepsIconsAgreeing`). |
| Accordion.SingleOpen | assets/js/components.js:865-900 | With `allowMultiple` false, the open set afterwards is `{}` if the target was open, else `{target}`: at most one item is open. |
| Accordion.MultipleOpen | assets/js/components.js:865-911 | With `allowMultiple` true, only the target changes: it leaves the open set if it was open, and joins it otherwise. |
| Accordion.ToggleKeepsIconsAgreeing | assets/js/components.js:865-911 | If each chevron is rotated exactly when its panel is open, that still holds after a toggle. |
| Accordion.ToggleTwiceRestores | assets/js/components.js:880-911 | With `allowMultiple` true, toggling the same item twice restores the panels. |
| Accordion.AccordionGroup.constructor | assets/js/components.js:460-478 | A new group has every panel hidden and no chevron rotated, so nothing is open. |
| Accordion.AccordionGroup.Toggle | assets/js/components.js:860-914 | The panels and chevrons become the toggled states of the old ones, at rest after the transition. |
| Routing.DeterminePageType | assets/js/main.js:76-91 | The ordered classifier, total over the five page types. Its order and case behaviour are stated by the lemmas below. |
| Routing.PageTypeIgnoresCase | assets/js/main.js:76-91 | Classifying a path or its lower-case form gives the same page type. |
| Routing.HomeTestComesFirst | assets/js/main.js:79-81 | A home path is home even when it mentions `modul`. |
| Routing.ModulesBeforeModule | assets/js/main.js:81-84 | A path with `modules.html` contains `modul` too, yet is the modules page. |
| Routing.ModulePageCharacterised | assets/js/main.js:79-86 | A path is a module page iff it is not home, has no `modules.html` and mentions `modul` in any case. The `modul/` test adds nothing. |
| Routing.UnmatchedIsHome | assets/js/main.js:79-90 | A path matching none of the tests is home. |
| Routing.IsActiveNavItem | assets/js/main.js:188-209 | The active-link test, with the current path as a parameter. `Routing.ActiveNavCharacterised` states when it holds. |
| Routing.ActiveNavCharacterised | assets/js/main.js:188-209 | A link is active iff its url is present, non-empty and not `http…`, and either the index rule applies or the last path segments match. |
| Routing.SameFileNameIsActive | assets/js/main.js:204-208 | An internal link is active on every page with the same file name, in any directory. |
| Routing.DigitRun | assets/js/main.js:270 | The longest leading run of digits. |
| Routing.FirstMatch | assets/js/main.js:270 | The leftmost position where `modul<digits>.html` starts, or none. |
| Routing.ModuleNumber | assets/js/main.js:270-271 | The captured number is a non-empty digit string, and there is none iff no position matches. |
| Routing.NumberIsMatched | assets/js/main.js:270-274 | A captured number comes from an occurrence of `modul<number>.html` in the path. |
| Routing.NoLowerModulNoNumber | assets/js/main.js:270-271 | Without a lower-case `modul` there is no number: the match is case-sensitive. |
| Routing.ModulePageWithoutNumber | assets/js/main.js:76-91 | A path like `/pages/Modul3.html` is classified as a module page but has no module number. |
| Routing.CanonicalModulePage | assets/js/main.js:270-275 | `/pages/modul<n>.html` yields the number `n` back, and the data file `/assets/data/content/modul<n>.json`. |
| Routing.ModuleDataPath | assets/js/main.js:274 | The data file `/assets/data/content/modul<n>.json` of module `n`, used by `Navigation.OpenModulePage`. |
| Navigation.RenderNavItems | assets/js/main.js:148-183 | The recursive sidebar renderer. Its shape and link count are stated by `Navigation.ItemShape`, `Navigation.ItemLinks` and `Navigation.LinksAreLeaves`. |
| Navigation.ItemShape | assets/js/main.js:148-183 | A group starts with its toggle button and has the `<id>-chevron` icon and the hidden `<id>-children` list. A leaf's first element is a link whose class says whether it is active. |
| Navigation.LinksAreLeaves | assets/js/main.js:148-183 | The sidebar has exactly one link per leaf of the tree. |
| Navigation.ItemLinks | assets/js/main.js:149-182 | One entry renders exactly one link per leaf under it. |
| Navigation.BreadcrumbMarkup | assets/js/main.js:447-457 | The breadcrumb's markup: a link and a chevron per item but the last, which is a span. Its shape is stated by `Navigation.BreadcrumbShape`. |
| Navigation.BreadcrumbShape | assets/js/main.js:447-458 | With `n >= 1` items there are `n-1` links, each followed by a chevron, and exactly one span, which closes the breadcrumb with the last title. No items give nothing. |
| Navigation.CrumbCounts | assets/js/main.js:448-457 | The last item is a span; every other one is a link and a chevron. |
| Navigation.Breadcrumb.Update | assets/js/main.js:443-459 | A missing container or an absent list leaves the breadcrumb unchanged; otherwise it becomes the rendering of the list. |
| Navigation.OpenModulePage | assets/js/main.js:267-299 | The breadcrumb always has three items: Home, Modules, and the current path. The fallback is shown iff the page is the fallback page, content and breadcrumb alike. |
| Navigation.ModulePageTitle | assets/js/main.js:276-283 | A loaded page falls back iff rendering its components throws. Otherwise the last breadcrumb is the data's title, or `Modul <n>` when that is falsy. |
| Navigation.NoNumberFallsBack | assets/js/main.js:270-271 | A path without a module number shows the fallback. |
| Progress.IndexOf | assets/js/main.js:525 | The first position holding the id, or -1 exactly when it is absent. |
| Progress.Toggled | assets/js/main.js:524-531 | The list after a toggle. Its lemmas state the append, the removal of the first occurrence and the restoring double toggle. |
| Progress.ToggleAbsentAppends | assets/js/main.js:527-531 | An absent id is pushed at the end. |
| Progress.ToggleRemovesFirst | assets/js/main.js:527-529 | A present id loses exactly its first occurrence; the rest keep their order, and the multiset loses one copy of the id. |
| Progress.ToggleTwiceRestores | assets/js/main.js:524-531 | Toggling an absent id twice restores the list. |
| Progress.ToggleFlipsMembership | assets/js/main.js:524-531 | On a duplicate-free list, a toggle flips the id's membership, keeps every other id's, and keeps the list duplicate-free. |
| Progress.UserData.ToggleBookmark | assets/js/main.js:523-544 | The list becomes the toggled list, and the star is highlighted afterwards iff the id was absent before. |
| Progress.ModuleCard | assets/js/main.js:367-402 | `renderModuleCard` with the completed and bookmark lists. The id may be a JSON string or number, and list membership is strict `includes`. |
| Progress.ModuleCardCompletion | assets/js/main.js:368-402 | The card offers `Review` and shows the `Completed` badge iff the module's id is in the completed list (a numeric id never is), and offers `Start Learning` otherwise. |
| Progress.ModuleCardStar | assets/js/main.js:369-385 | The card has the highlighted star iff the module's id is in the bookmark list (a numeric id never is). |
| Progress.StarFollowsToggle | assets/js/main.js:523-544 | For a string id, after the star's toggle (which passes the id as text) the redrawn card's star agrees with the highlight the toggle reported. |
| Progress.NumericIdStarNeverLit | assets/js/main.js:368-385 | For a numeric id, the star's toggle bookmarks the id's decimal text. The redrawn card still shows no highlighted star, because `includes` compares the raw number. |
| Theme.StartsDark | assets/js/theme.js:13-16 | The start-up decision: dark iff the saved value is `dark`, or it is falsy and the system prefers dark. Its lemmas state the saved-value and system cases. |
| Theme.SavedValueDecides | assets/js/theme.js:13-22 | Any non-empty saved value decides alone: dark iff it is `dark`, whatever the system prefers. |
| Theme.SystemDecidesWhenUnsaved | assets/js/theme.js:13-16 | With no saved value, or an empty one, the system preference decides. |
| Theme.PersistedThemeRoundTrip | assets/js/theme.js:13-48 | The persisted name brings the next page load back to the same state. |
| Theme.IconsFollowTheme | assets/js/theme.js:79-87 | In dark mode the sun is hidden and the moon shown (`dark:block`); in light mode the reverse. |
| Theme.ThemeDocument.InitializeTheme | assets/js/theme.js:12-23 | The document is dark iff the saved value is `dark`, or it is absent or empty and the system prefers dark; `data-theme` agrees with the `dark` class. |
| Theme.ThemeDocument.UpdateThemeToggleIcon | assets/js/theme.js:71-90 | With the button and both icons present, the icons follow the theme; otherwise nothing changes. |
| Theme.ThemeDocument.ToggleTheme | assets/js/theme.js:35-56 | Dark flips, `data-theme` agrees with it, the new name is saved and the icons are redrawn. Two toggles therefore restore the dark state. |

## Left out

- The `setTimeout` that fills a code block after rendering (components.js:219-234) is not modelled. The code renderer returns the load it schedules (path, code id, loader id); running the load is `CodePaths.ReadCodeFile`.
- The accordion's 300 ms height transitions are not modelled: `Accordion.AccordionGroup.Toggle` gives the state at rest.
- `autoRenderComponents`, `waitForElement`, `navigateToSection`, toasts and scroll progress are timers, observers and floating point.
- `fetch` is a parameter. This covers the one in `readCodeFile` and the module data fetch in `initializeModulePage`. The sidebar, home, modules and static-page loaders of main.js are not modelled.
- Clipboard, sharing, fullscreen and `window.open` are foreign calls, and are not modelled. This covers the `copy*` functions, `shareSection`, the share modal and URL builders, and assets/js/share.js. The share and copy buttons are modelled only as buttons with their `onclick` text.
- `escapeHtml` is never called by the renderers, and no escaping is modelled: data is interpolated raw (`Val`).
- assets/components/footer.js is DOM injection and observer code, and is not part of this model.
- CSS strings, style injection and layout-only classes are not modelled. Nor are the icons inside the code and command buttons.
- `generateId` (components.js:14-16) reads the clock and a random number. Its values are parameters (`Fresh`, a supply per batch position). The code renderer takes one for its code id. `generateSectionId` takes one when the title is absent or empty.
- `SectionIds.Clean`: `toLowerCase` is modelled on ASCII letters only, because Unicode case mapping is not modelled; JavaScript's `\s` class is written out.
- `Renderers.Terminal`: the terminal label's `toUpperCase` is modelled on ASCII letters only. Unicode mappings such as "ß" to "SS" are not modelled.
- `Progress.ModuleCard`: a module's `id` may be a JSON string or number (`Progress.ModuleId`). The completed and bookmark lists are taken to hold strings only. A number that other code stores in the lists is not modelled.
- Local storage is not modelled, because it is I/O. Only the in-memory bookmark list and the saved theme value are. JSON `null` and `undefined` are not distinguished.
- Unknown theme or type keys inside a renderer interpolate `undefined` (for example `PromptSymbol`'s last case). The model keeps that and adds no fallback.
- `Renderers.ModuleHeader`, `Renderers.Info`, `Renderers.Material`, `Renderers.Video`: the properties stated are that they always render, their share buttons and defaults, the heading level and the embedded player. Their theme and type class tables are layout and are not modelled.
- `Dispatch.RenderComponentAsWritten` models three inherited names: `toString`, `toLocaleString` and `__proto__`. The other members objects inherit (`valueOf`, `hasOwnProperty`, ...) are not modelled.
- No caller isolates a failing component. In `renderComponent`/`renderComponents` a throw escapes the whole batch, and the model follows that code (`Dispatch.BatchOkIffAllOk`). In `autoRenderComponents` the batch runs inside a timer callback (components.js:1303-1304), outside the `try` at components.js:1291, so the throw escapes the callback uncaught. In `initializeModulePage` it is caught, and the whole page is replaced by the fallback (`Navigation.ModulePageTitle`).
- `Accordion.AccordionGroup.Toggle` takes the item's index rather than its id string. A target id that names no item (`getElementById` returning null) is not modelled.
- `initializeModuleNavigation`, `toggleNavGroup`, the mobile menu and the fallback page's markup are not modelled. The page-content container is assumed present.
- `Theme.ThemeDocument.ToggleTheme`: `forceStyleUpdate` is a reflow with no state of its own, and is left out.

## Findings

| source | as written | input that shows it | evidently intended | confidence | as-written member | corrected member |
|---|---|---|---|---|---|---|
| assets/js/components.js:583 | `ComponentRenderers[type]` reads an object literal, so it also finds the members every object inherits. | A component of type `toString` renders `[object Object]` instead of the unknown-type notice, and type `__proto__` throws (`Dispatch.InheritedNamesSkipNotice`). | Only the registry's own keys name renderers; any other type gets the notice with its name (`Dispatch.UnknownTypeIsNotice`). | not executed | Dispatch.RenderComponentAsWritten | Dispatch.RenderComponent |
