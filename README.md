# Company-profile site: client-side logic in Dafny

This project models the client-side logic of a bank's company-profile site
built with Next.js: an article dashboard that keeps an in-memory copy of
the article list in step with a hosted REST store, the public blog with
its search and category filters, and the navigation, savings-and-loans,
publications and contact pages. Each page's React state becomes a Dafny
`class` whose fields are the state variables and whose methods are the
event handlers. What a handler computes is a pure function, and the
properties the pages promise are proved as lemmas about those functions.

Modules, one per source file plus shared ones:

- `Outcomes`: `Option`, and the result of a store call (`Success(value)` or `Failure(message)`).
- `Seqs`: `Array.prototype.filter` (`Filter`), `[...new Set(xs)]` (`Distinct`) and subsequences.
- `Text`: `startsWith`, `includes`, ASCII `toLowerCase`, JavaScript `trim`, `substring(0, n)` and the extent of a query value.
- `UriComponent`: `encodeURIComponent`. Characters are turned into UTF-8 bytes, and every byte outside the unreserved set becomes `%XX` with upper-case hex digits. A decoder is defined beside it, with the round trip proved.
- `Articles`: the article record of the store, with its field spellings `categoryy` and `publish`.
- `ArticleEditor`, `ArticleTable`, `Dashboard`: the admin dashboard.
- `ArticleGrid`, `ArticleCard`, `Blog`, `ImageWithFallback`: the public blog.
- `Navbar`, `SavingLoan`, `Publication`, `Contact`: the other pages.

Asynchronous handlers are split at their `await`. A `Begin` method runs
the code before the call and returns the request it makes. A `Settle`
method runs the code after the call and takes the call's outcome as a
parameter. Each half runs as one atomic step. Alerts, router calls and
`window` navigation are returned as values. They are not performed.

## Model

| member | source | states |
|---|---|---|
| Dashboard.SaveRequest | src/app/dashboard/page.tsx:47-65 | a save goes to update exactly when the data has a truthy `objectId`, and that id is split off the body: putting it back gives the data again. Otherwise the save is a create with the data unchanged |
| Dashboard.ReplaceById | src/app/dashboard/page.tsx:55-59 | the list after an update keeps its length. Entries with the returned id become the returned record. All others are kept in place |
| Dashboard.RemoveById | src/app/dashboard/page.tsx:93 | the list after a delete never grows. It holds exactly the listed entries whose id differs from the deleted one |
| Dashboard.ApplySaved | src/app/dashboard/page.tsx:55-66 | after an update the list keeps its length. Every entry with the returned id becomes the returned record, and every other entry stays as it was. So the ids are unchanged, in order, and the record is present exactly when its id was listed. After a create the list is the old one with the returned record appended |
| Dashboard.ReplaceKeepsIds | src/app/dashboard/page.tsx:55-59 | an update never changes the list's ids or their order |
| Dashboard.ReplaceAbsentIsNoop | src/app/dashboard/page.tsx:55-59 | a returned record whose id is not listed leaves the list unchanged |
| Dashboard.ReplaceIdempotent | src/app/dashboard/page.tsx:55-59 | applying the same returned record twice has the same effect as applying it once |
| Dashboard.ReplaceUniqueIsPointUpdate | src/app/dashboard/page.tsx:55-59 | with unique ids, an update is a point update of the one entry with that id |
| Dashboard.RemoveByIdSpec | src/app/dashboard/page.tsx:93 | after a delete no entry has the id. Every other entry is kept, in order, as often as it occurred |
| Dashboard.RemoveUniqueIsSplice | src/app/dashboard/page.tsx:93 | with unique ids, deleting the id of entry k removes exactly entry k |
| Dashboard.RemoveSplice | src/app/dashboard/page.tsx:93 | deleting an id that only one entry has leaves the entries before it and after it, joined |
| Dashboard.CreateThenDelete | src/app/dashboard/page.tsx:65-66 | deleting a just-created record's id gives the same list as deleting that id before the create |
| Dashboard.SaveKeepsUniqueIds | src/app/dashboard/page.tsx:54-66 | an update, or a create whose returned id is new, keeps the ids unique |
| Dashboard.RemoveKeepsUniqueIds | src/app/dashboard/page.tsx:93 | a delete keeps the ids unique |
| Dashboard.DeleteFromRowRemovesRow | src/components/dashboard/ArticleTable.tsx:62-69 | a row's Delete button asks to delete that row's own id. With unique ids, a successful delete removes exactly that row |
| Dashboard.UnchangedEditUpdates | src/app/dashboard/page.tsx:47-54 | submitting a listed article's form unchanged sends an update of its id whose body carries the article's own fields |
| Dashboard.EmptyIdEditCreates | src/app/dashboard/page.tsx:47 | an article whose `objectId` is the empty string is saved through the create route |
| Dashboard.DashboardPage.constructor | src/app/dashboard/page.tsx:17-21 | initially: empty list, loading, not submitting, table view, nothing selected |
| Dashboard.DashboardPage.BeginLoad | src/app/dashboard/page.tsx:26 | loading starts and nothing else changes |
| Dashboard.DashboardPage.SettleLoad | src/app/dashboard/page.tsx:27-35 | success adopts the fetched list. Failure keeps the list and raises the failure alert. Loading ends either way |
| Dashboard.DashboardPage.BeginSave | src/app/dashboard/page.tsx:44-54 | submitting starts and the request is the one `SaveRequest` chooses |
| Dashboard.DashboardPage.SettleSave | src/app/dashboard/page.tsx:54-76 | success merges the returned record (replace or append), returns to the table with nothing selected and raises the matching alert. Failure changes neither the list nor the view. Submitting ends either way |
| Dashboard.DashboardPage.BeginDelete | src/app/dashboard/page.tsx:87-90 | a declined confirmation changes nothing and issues no call. A confirmed one starts loading and requests that id |
| Dashboard.DashboardPage.SettleDelete | src/app/dashboard/page.tsx:91-100 | success removes every entry with the id. Failure keeps the list. Loading ends either way |
| Dashboard.DashboardPage.HandleEditArticle | src/app/dashboard/page.tsx:80-83 | the article is selected and the form is shown |
| Dashboard.DashboardPage.HandleBack | src/app/dashboard/page.tsx:104-107 | nothing is selected and the table is shown |
| Dashboard.DashboardPage.HandleAddArticle | src/app/dashboard/page.tsx:110-113 | nothing is selected and the form is shown |
| Dashboard.DashboardPage.Screen | src/app/dashboard/page.tsx:120-148 | the table view shows the add button and the table of the list. The form view shows the editor for the selected article, busy while submitting |
| ArticleEditor.FromArticle | src/components/dashboard/ArticleForm.tsx:24-44 | with an article, the form copies its id, title, content, publish flag and slug. A null thumbnail or missing category becomes `''`. Without one, the form is blank and has no id |
| ArticleEditor.ApplyChange | src/components/dashboard/ArticleForm.tsx:47-53 | a text input sets only its named field and a checkbox sets only `publish`. The id is never touched |
| ArticleEditor.CanSubmit | src/components/dashboard/ArticleForm.tsx:57 | the form passes the guard exactly when every required input (title, content, slug) is non-empty |
| ArticleEditor.GuardIgnoresOptionalFields | src/components/dashboard/ArticleForm.tsx:47-57 | editing the thumbnail, the category or the publish flag never changes whether the form can be submitted |
| ArticleEditor.BlankFormRejected | src/components/dashboard/ArticleForm.tsx:15-22 | the blank form can never be submitted |
| ArticleEditor.FilledFormAccepted | src/components/dashboard/ArticleForm.tsx:57-61 | filling in title, content and slug is enough for a blank form to pass the submit check |
| ArticleEditor.ArticleForm.constructor | src/components/dashboard/ArticleForm.tsx:15-45 | after mounting, the form state is `FromArticle` of the prop |
| ArticleEditor.ArticleForm.SyncWithArticle | src/components/dashboard/ArticleForm.tsx:24-45 | the effect sets the state to `FromArticle` of the new prop |
| ArticleEditor.ArticleForm.HandleChange | src/components/dashboard/ArticleForm.tsx:47-53 | the state becomes `ApplyChange` of the old state and the event |
| ArticleEditor.ArticleForm.HandleSubmit | src/components/dashboard/ArticleForm.tsx:55-62 | the current state is handed to `onSave` exactly when title, content and slug are all non-empty. Otherwise nothing is saved and the empty-fields alert is shown |
| ArticleTable.StatusLabel | src/components/dashboard/ArticleTable.tsx:46-47 | the badge reads `Published` exactly for published articles and `Draft` exactly for the others |
| ArticleTable.RowsOf | src/components/dashboard/ArticleTable.tsx:37-38 | one row per article, in list order, each built from its own article |
| ArticleTable.Render | src/components/dashboard/ArticleTable.tsx:16-38 | the loading message shows exactly while loading. The empty message shows exactly when not loading and the list is empty. Otherwise there is one row per article, in order, keyed by its id and carrying that article for Edit |
| ArticleTable.DeleteRequest | src/components/dashboard/ArticleTable.tsx:62-69 | `onDelete` is called, with the row's id, exactly when that id is truthy. Otherwise the missing-id alert is shown instead |
| Seqs.Filter | src/app/blog/page.tsx:31 | a value is kept exactly when it occurs in the input and passes the test. The result is never longer than the input |
| Seqs.FilterCount | src/app/dashboard/page.tsx:93 | a kept value occurs as often as in the input. A dropped value does not occur |
| Seqs.FilterIsSubseq | src/app/blog/page.tsx:54-62 | a filter's result is an order-preserving subsequence of its input |
| Seqs.FilterAllKept | src/app/blog/page.tsx:49-65 | filtering by a test every element passes returns the input unchanged |
| Seqs.FilterAppend | src/app/dashboard/page.tsx:66 | filtering distributes over concatenation |
| Seqs.FilterIdempotent | src/app/blog/page.tsx:54-62 | filtering twice by one test is filtering once |
| Seqs.FilterFilter | src/app/blog/page.tsx:53-63 | two filters in a row are one filter by both tests |
| Seqs.Distinct | src/app/blog/page.tsx:35-39 | the `Set` spread holds exactly the input's values, each once |
| Seqs.DistinctFirstOccurrenceOrder | src/app/blog/page.tsx:35-39 | the `Set` spread lists values in the order of their first occurrence |
| Blog.PublishedOnly | src/app/blog/page.tsx:31 | the loaded list holds exactly the fetched articles that are published |
| Blog.CategoryValues | src/app/blog/page.tsx:36-38 | the collected values number at most the articles, and none is blank once trimmed |
| Blog.CategoryValuesSpec | src/app/blog/page.tsx:36-38 | a category is collected exactly when some published article has it as a string that is not blank once trimmed |
| Blog.Categories | src/app/blog/page.tsx:35-40 | the dropdown's categories have no duplicates, number at most the published articles, and none is blank |
| Blog.CategoriesSpec | src/app/blog/page.tsx:35-40 | the category list has no duplicates. It holds exactly the offered categories, ordered by first occurrence |
| Blog.MatchesTerm | src/app/blog/page.tsx:53-58 | an empty term matches every article. A term that occurs in the title or the content as typed is always found, whatever the case |
| Blog.MatchesCategory | src/app/blog/page.tsx:61-63 | an empty selection matches every article. A non-blank selection matches only articles that offer it as their listed category |
| Blog.FilterArticles | src/app/blog/page.tsx:49-66 | an article is kept exactly when it is in the list and matches both tests. An empty term matches every article; otherwise the lowered title or content must contain the lowered term. An empty category matches every article; otherwise `categoryy` must equal it |
| Blog.FilterArticlesIsOneFilter | src/app/blog/page.tsx:49-66 | the two filters in a row equal one filter by both tests |
| Blog.FilterArticlesIsSubseq | src/app/blog/page.tsx:49-66 | the grid's list is an order-preserving subsequence of the articles. Each match is kept as often as it occurs |
| Blog.NoFilterIsIdentity | src/app/blog/page.tsx:53-63 | with no term and no category, every published article is shown |
| Blog.SearchIgnoresTermCase | src/app/blog/page.tsx:54-57 | lowering the term first does not change the result |
| Blog.GridShowsOnlyMatches | src/app/blog/page.tsx:97-100 | every card on the blog grid is a fetched, published article that matches the current term and category |
| Blog.BlogPage.constructor | src/app/blog/page.tsx:11-25 | initially: empty lists and term, nothing selected, loading, and the filter effect in force |
| Blog.BlogPage.BeginLoad | src/app/blog/page.tsx:28 | loading starts and nothing else changes |
| Blog.BlogPage.SettleLoad | src/app/blog/page.tsx:29-46 | success stores the published articles and their categories. Failure keeps both. Loading ends, and the filtered list matches the filters |
| Blog.BlogPage.SetSearchTerm | src/app/blog/page.tsx:23-25 | the term changes and the filtered list is recomputed |
| Blog.BlogPage.SetSelectedCategory | src/app/blog/page.tsx:23-25 | the category changes and the filtered list is recomputed |
| Blog.BlogPage.HandleArticleClick | src/app/blog/page.tsx:68-70 | the article is selected and nothing else changes |
| Blog.BlogPage.HandleBackToGrid | src/app/blog/page.tsx:72-74 | the selection is cleared and nothing else changes |
| Blog.BlogPage.Screen | src/app/blog/page.tsx:76-101 | a selected article shows its detail view. Otherwise the page shows the loading message while loading, and after that the grid of the filtered list |
| ArticleGrid.Cards | src/components/blog/ArticleGrid.tsx:24-42 | card `i` is the `i`-th entry that is present and has a truthy id, so the cards follow the list's order. A card is shown exactly for those entries |
| ArticleGrid.CardsKeepOrderAndRepeats | src/components/blog/ArticleGrid.tsx:24-42 | the cards, as entries, are an order-preserving subsequence of the list. They hold each renderable entry as often as the list does, and no other |
| ArticleGrid.Render | src/components/blog/ArticleGrid.tsx:24-49 | the empty message shows exactly when the list itself is empty. The cards are those of the renderable entries |
| ArticleGrid.CardsAndSkippedPartition | src/components/blog/ArticleGrid.tsx:30-33 | each entry either becomes a card or is skipped |
| ArticleGrid.Skipped | src/components/blog/ArticleGrid.tsx:30-33 | an entry is skipped exactly when it is listed and not renderable |
| ArticleGrid.AllInvalidRendersNothing | src/components/blog/ArticleGrid.tsx:45-49 | a non-empty list of unusable entries shows no card and no empty message |
| ArticleGrid.AllValidRendersAll | src/components/blog/ArticleGrid.tsx:24-42 | when every article has an id, the grid shows them all, in order |
| ArticleCard.Excerpt | src/components/blog/ArticleCard.tsx:61 | non-empty content gives at most 153 characters: a prefix of the content, then `...`. Short content is kept whole. Empty content gives the fixed message |
| ArticleCard.Render | src/components/blog/ArticleCard.tsx:20-71 | a missing article renders nothing. Otherwise the card uses the thumbnail or the default image, the title or its fallbacks, the category or its fallback, and the excerpt. A date is shown only for a truthy `created` |
| ArticleCard.AfterError | src/components/blog/ArticleCard.tsx:38-47 | after an error the image is the default. A non-default image also gets the unavailable-image alt text. A failing default is left alone |
| ArticleCard.AfterErrorIdempotent | src/components/blog/ArticleCard.tsx:42 | a second error changes nothing |
| ArticleCard.CardImage.constructor | src/components/blog/ArticleCard.tsx:33-35 | the image starts with the thumbnail or the default, and the title or the fallback alt |
| ArticleCard.CardImage.HandleError | src/components/blog/ArticleCard.tsx:38-47 | the element becomes `AfterError` of its old state |
| ImageWithFallback.FallbackOf | src/components/ImageWithFallback.tsx:13-15 | an absent `defaultSrc` prop means the module's fallback image |
| ImageWithFallback.Initial | src/components/ImageWithFallback.tsx:16-17 | the image starts as `src` when it is non-empty, else the fallback, with no error |
| ImageWithFallback.OnError | src/components/ImageWithFallback.tsx:19-25 | the first error on a non-fallback image switches to the fallback and records the error. Any other error changes nothing |
| ImageWithFallback.OnErrorIdempotent | src/components/ImageWithFallback.tsx:20 | a second error changes nothing |
| ImageWithFallback.AfterErrors | src/components/ImageWithFallback.tsx:19-25 | after any number of errors the image is the starting one or the fallback. The error flag is set only together with the switch to the fallback |
| ImageWithFallback.ErrorsSwitchAtMostOnce | src/components/ImageWithFallback.tsx:19-25 | any number of errors, at least one, leaves the state the first error made: the source switches at most once |
| ImageWithFallback.SourceIsInitialOrFallback | src/components/ImageWithFallback.tsx:16-22 | the image shown is always the initial one or the fallback |
| ImageWithFallback.ImageWithFallback.constructor | src/components/ImageWithFallback.tsx:15-17 | the state starts as `Initial` with the resolved fallback |
| ImageWithFallback.ImageWithFallback.HandleError | src/components/ImageWithFallback.tsx:19-25 | the state becomes `OnError` of the old state |
| Navbar.TabOfTabHref | src/components/Navbar.tsx:296-297 | the tab read back from a tab link is the tab it was built from |
| Navbar.IsActiveLink | src/components/Navbar.tsx:289-304 | an active home link means the path is `/`. An active tab link means the path is `/saving-loan` with a `tab` parameter. Any other active link is a prefix of the path |
| Navbar.TabOfHref | src/components/Navbar.tsx:296-297 | the tab read from a tab link is a prefix of the text after `?tab=` and holds no `&` or `#` |
| Navbar.HomeActiveIff | src/components/Navbar.tsx:291-293 | the home link is active exactly on `/` with no truthy `tab` parameter |
| Navbar.TabLinkActiveIff | src/components/Navbar.tsx:295-300 | a tab link is active exactly on `/saving-loan` with the same `tab` |
| Navbar.EmptyHrefAlwaysActive | src/components/Navbar.tsx:367 | the `''` used for a sub-link with no href is active on every path that starts with `/` |
| Navbar.PlainLinkActiveBelow | src/components/Navbar.tsx:303 | any other link is active on its own path and on every path below it |
| Navbar.OpenAt | src/components/Navbar.tsx:240-280 | entering a level opens it, keeps the shallower levels and closes the deeper ones |
| Navbar.CloseFrom | src/components/Navbar.tsx:250-286 | a fired timeout closes its level and every deeper one, and never a shallower one |
| Navbar.Enter | src/components/Navbar.tsx:240-280 | an enter cancels the level's ref'd timer, clears the ref and opens the menus. The other levels' timers are untouched |
| Navbar.Leave | src/components/Navbar.tsx:250-286 | a leave schedules a new timer and points the level's ref at it. The menus do not change |
| Navbar.Fire | src/components/Navbar.tsx:251-285 | a timer that is still scheduled closes its level and the deeper ones. A cancelled timer does nothing |
| Navbar.LeaveThenEnterKeepsOpen | src/components/Navbar.tsx:240-256 | coming back before the timeout keeps the menu open: the leave's timer no longer fires |
| Navbar.ClearedTimerNeverFires | src/components/Navbar.tsx:241-244 | a timer cancelled by an enter has no effect when its time comes |
| Navbar.FireKeepsShallowerLevels | src/components/Navbar.tsx:267-286 | a fired timer never changes a shallower level |
| Navbar.StaleTimerStillCloses | src/components/Navbar.tsx:250-256 | after two leaves with no enter between them, an enter cancels only the second timer. The first still closes the menu |
| Navbar.SubItems | src/components/Navbar.tsx:60-73 | the children are the first non-empty list of `subLinks`, `subSubLinks` and `subSubSubLinks`, or none |
| Navbar.LinkHref | src/components/Navbar.tsx:80 | an entry is a link exactly when its href is truthy |
| Navbar.LinkClick | src/components/Navbar.tsx:82-102 | `#` only toggles the entry. A tab link pushes the tab route when its tab is non-empty. Any other link is pushed unchanged. Every link except `#` closes the menu |
| Navbar.TabLinkClickPushesItself | src/components/Navbar.tsx:91-96 | clicking a tab link built from a non-empty, plain tab navigates to exactly that link |
| Navbar.MobileMenuItem.constructor | src/components/Navbar.tsx:57 | an entry starts collapsed |
| Navbar.MobileMenuItem.HandleToggle | src/components/Navbar.tsx:75-78 | the chevron, which is shown only for an entry with sub-items, flips the expansion |
| Navbar.MobileMenuItem.Children | src/components/Navbar.tsx:131-144 | an expanded entry shows its sub-items. A collapsed one shows none |
| Navbar.MobileMenuItem.HandleLinkClick | src/components/Navbar.tsx:82-102 | the click has the effect `LinkClick` gives, and flips the expansion only for `#` |
| Navbar.NavigationBar.constructor | src/components/Navbar.tsx:151-159 | the bar starts closed, with no menu open and no timer scheduled |
| Navbar.NavigationBar.ToggleOpen | src/components/Navbar.tsx:472 | the hamburger flips `isOpen` |
| Navbar.NavigationBar.CloseNav | src/components/Navbar.tsx:490 | `onCloseNav` closes the mobile menu |
| Navbar.NavigationBar.MouseEnter | src/components/Navbar.tsx:240-280 | the hover state becomes `Enter` of the old one |
| Navbar.NavigationBar.MouseLeave | src/components/Navbar.tsx:250-286 | the hover state becomes `Leave` of the old one |
| Navbar.NavigationBar.TimerFires | src/components/Navbar.tsx:251-285 | the hover state becomes `Fire` of the old one |
| SavingLoan.Find | src/app/saving-loan/page.tsx:31-34 | exactly the two dropdown ids are found, each with its own entry |
| SavingLoan.Select | src/app/saving-loan/page.tsx:46-48 | once the URL names the chosen entry's id, the sync effect keeps the choice. The icon is the entry's. Savings products are shown exactly for the savings entry |
| SavingLoan.SelectUrl | src/app/saving-loan/page.tsx:50 | the replaced URL is the navigation bar's link to that tab. The bar reads the id back from it, up to the id's first `&` or `#` |
| SavingLoan.Initial | src/app/saving-loan/page.tsx:37-42 | the tab is the URL's `tab` when truthy, else `saving-product`. The caption is that entry's caption, else `Savings & Deposits` |
| SavingLoan.Sync | src/app/saving-loan/page.tsx:54-70 | a known URL tab other than the active one is adopted with its caption. An unknown one changes nothing. With no tab, the state goes back to the default unless it is already there |
| SavingLoan.SyncSettles | src/app/saving-loan/page.tsx:54-70 | running the effect again changes nothing, so the page settles |
| SavingLoan.SelectThenSyncKeeps | src/app/saving-loan/page.tsx:46-61 | after a dropdown choice and the URL update it writes, the sync keeps the choice |
| SavingLoan.SelectRevertsUntilUrlArrives | src/app/saving-loan/page.tsx:46-70 | choosing the financing entry while the URL names the savings tab, or no tab, flips the page back to savings until the replaced URL arrives |
| SavingLoan.ReplacedUrlRestoresChoice | src/app/saving-loan/page.tsx:46-61 | whatever the sync against the old URL did to a choice, the sync with the replaced URL brings the chosen entry back |
| SavingLoan.KnownTabShowsItsCaption | src/app/saving-loan/page.tsx:37-61 | a known URL tab gets its own caption, and the sync keeps it |
| SavingLoan.CurrentIcon | src/app/saving-loan/page.tsx:73 | the icon is the active entry's icon, else the piggy bank |
| SavingLoan.UnknownTabShowsFinancingUnderSavingsCaption | src/app/saving-loan/page.tsx:37-73 | an unknown URL tab survives the sync. The page then shows financing products under the savings caption and icon |
| SavingLoan.NavbarSavingTabIsKnown | src/components/Navbar.tsx:194 | the navigation bar's savings tab link names the savings entry |
| SavingLoan.NavbarFinancingTabIsKnown | src/components/Navbar.tsx:203 | the navigation bar's financing tab link names the financing entry |
| SavingLoan.SavingLoanPage.constructor | src/app/saving-loan/page.tsx:37-42 | the state starts as `Initial` of the URL's `tab` |
| SavingLoan.SavingLoanPage.HandleDropdownSelect | src/app/saving-loan/page.tsx:46-70 | the chosen tab and caption are set, and then the sync effect runs against the URL's old `tab`, because `activeTab` changed. The returned URL, which replaces the current one later, is that tab's URL |
| SavingLoan.SavingLoanPage.SyncWithUrl | src/app/saving-loan/page.tsx:54-70 | the state becomes `Sync` of the old state and the URL's `tab` |
| SavingLoan.SavingLoanPage.ShowsSavingsProducts | src/app/saving-loan/page.tsx:156 | savings products are shown exactly for `saving-product` |
| Publication.SectionKeyRoundTrip | src/components/PublicationContentWrapper.tsx:22-91 | every section is found again from its key |
| Publication.Lookup | src/components/PublicationContentWrapper.tsx:104 | a key finds its own section exactly when it names one. It finds an inherited member exactly when it is an `Object.prototype` key |
| Publication.Documents | src/components/PublicationContentWrapper.tsx:29-47 | exactly the financial and annual reports list documents |
| Publication.Sync | src/components/PublicationContentWrapper.tsx:102-114 | a truthy parameter with a truthy entry becomes the active section. The two report kinds also force the submenu open. A missing or empty parameter asks for the default URL and changes nothing. Any other parameter does nothing |
| Publication.Click | src/components/PublicationContentWrapper.tsx:116-126 | the clicked section becomes active and its URL is pushed. Report toggles the submenu, the two report kinds open it and the others close it |
| Publication.SyncNeverCollapses | src/components/PublicationContentWrapper.tsx:106-108 | the URL sync never closes the submenu |
| Publication.ClickThenSyncKeeps | src/components/PublicationContentWrapper.tsx:102-126 | when the URL catches up with a click, the sync leaves the clicked state unchanged |
| Publication.ReportClickTwiceRestores | src/components/PublicationContentWrapper.tsx:119-120 | two clicks on Report leave the submenu as it was |
| Publication.TransitionsKeepEntry | src/components/PublicationContentWrapper.tsx:99-126 | the active section always has a truthy entry: it does initially, and both transitions keep it |
| Publication.Breadcrumbs | src/components/PublicationContentWrapper.tsx:128-135 | HOME and Publication always come first. A third crumb, with the entry's title and URL, appears exactly when the section is not Report and has an entry |
| Publication.ReportHighlighted | src/components/PublicationContentWrapper.tsx:164 | the Report button is highlighted exactly when the active key names Report or one of the two report kinds |
| Publication.ClickHighlightsReportGroup | src/components/PublicationContentWrapper.tsx:116-164 | after a click, the Report button is highlighted exactly for Report and the two report kinds. After a report kind, the submenu is open |
| Publication.Heading | src/components/PublicationContentWrapper.tsx:246 | the heading is the section's title, else `Select a Publication` |
| Publication.PaneOf | src/components/PublicationContentWrapper.tsx:249-265 | the pane lists documents exactly when the entry has them. Otherwise it shows the entry's content |
| Publication.SectionRendering | src/components/PublicationContentWrapper.tsx:128-135 | each section shows its title. Its crumb carries the title, except for Report, which has no third crumb |
| Publication.InheritedKeyAccepted | src/components/PublicationContentWrapper.tsx:104-105 | `?section=toString` is accepted as the active section. The heading falls back, the pane is empty and the third crumb has no caption |
| Publication.PublicationContent.constructor | src/components/PublicationContentWrapper.tsx:99-100 | the section starts as `financial-report`, with the submenu closed |
| Publication.PublicationContent.SyncWithUrl | src/components/PublicationContentWrapper.tsx:102-114 | the state and the replaced URL are those `Sync` gives |
| Publication.PublicationContent.HandleSectionClick | src/components/PublicationContentWrapper.tsx:116-126 | the state and the pushed URL are those `Click` gives |
| Contact.SetField | src/app/Contact/page.tsx:61-67 | the named field takes the value and the others are kept |
| Contact.MailBody | src/app/Contact/page.tsx:72 | the name, the email and the message appear in the body as typed, without encoding, at their fixed places |
| Contact.MailtoLink | src/app/Contact/page.tsx:72-73 | the link is the fixed address and `?subject=`, then the encoded subject, then `&body=` and the body without encoding |
| Contact.MailSubjectRoundTrip | src/app/Contact/page.tsx:73 | whatever the subject holds, the link's `subject` parameter decodes back to it |
| Contact.MailBodyIntactIff | src/app/Contact/page.tsx:72-73 | the `body` parameter holds the whole body exactly when no field puts a `&` or `#` into it |
| Contact.AmpersandInMessageCutsBody | src/app/Contact/page.tsx:72 | an `&` in the message cuts the `body` parameter short |
| Contact.OnlyFirstIsHeadOffice | src/app/Contact/page.tsx:127-137 | only the first branch card carries the head-office badge and icon |
| Contact.WhatsAppUrl | src/app/Contact/page.tsx:77-79 | the chat link is the number's `wa.me` URL with the encoded greeting that names the branch |
| Contact.WhatsAppTextRoundTrip | src/app/Contact/page.tsx:78-79 | the `text` parameter decodes back to the greeting, whatever the branch name |
| Contact.ContactPage.constructor | src/app/Contact/page.tsx:19-24 | the form starts with every field empty |
| Contact.ContactPage.HandleInputChange | src/app/Contact/page.tsx:61-67 | the form becomes `SetField` of the old form |
| Contact.ContactPage.HandleSubmit | src/app/Contact/page.tsx:69-75 | the location assigned is `MailtoLink` of the form |
| Contact.ContactPage.HandleWhatsAppClick | src/app/Contact/page.tsx:77-81 | the URL opened is `WhatsAppUrl` of the number and branch |
| UriComponent.Encode | src/app/Contact/page.tsx:73 | the encoding uses only unreserved characters and `%` |
| UriComponent.DecodeEncode | src/app/Contact/page.tsx:79 | decoding the encoding of any text gives the text back |
| UriComponent.EncodeInjective | src/app/Contact/page.tsx:73 | different texts have different encodings |
| Text.ContainsIffOccurs | src/app/blog/page.tsx:55-56 | `includes` holds exactly when the term occurs at some position |
| Text.LowerIdempotent | src/app/blog/page.tsx:55-56 | lowering twice is lowering once |
| Text.ContainsLowered | src/app/blog/page.tsx:55-56 | whenever a text contains a term, it still contains it once both are lowered |
| Text.TrimEmptyIffBlank | src/app/blog/page.tsx:38 | `trim()` gives `''` exactly for a text made only of whitespace |
| Text.Take | src/components/blog/ArticleCard.tsx:61 | `substring(0, n)` is a prefix of length `min(n, length)` |
| Text.QueryValueOfPlain | src/components/Navbar.tsx:93 | a value free of `&` and `#` is read back whole |

## Left out

- `src/lib/api.ts` (the `fetch` wrappers) is not part of this model. Each store call's result is a parameter of the `Settle` methods: `Success(value)` or `Failure(message)`. Network, caching hints and response parsing are not modelled.
- Handlers that overlap in time are not modelled. Each half of a handler runs atomically, and the buttons that `submitting` and `loading` disable are not modelled.
- React's render cycle is simplified. An effect runs as part of the step that changes its dependencies, for example `Blog.BlogPage.SetSearchTerm` and `SavingLoan.SavingLoanPage.HandleDropdownSelect`. The one render in between, before the effect, is not modelled.
- Alerts, `confirm`, `router.push`/`router.replace`, `window.location` and `window.open` are not performed. The alert text, the confirmation answer and the URL are returned or passed as values.
- Timers are not modelled: the 200 ms delays, the scroll listener and its `scrolled` flag, and the carousel in `src/components/Article.tsx`. A leave timeout firing is a separate event (`Navbar.NavigationBar.TimerFires`).
- Markup, styling, icons, animations and date formatting (`toLocaleDateString`) are not modelled. A card's date is kept as the raw timestamp.
- The `[slug]` article page, `ArticleDetail`, `BlogHeader`, `DashboardHeader`, `layout.tsx` and `next.config.ts` are not part of this model. They hold markup or only a subtraction.
- No HTML sanitiser exists in these files, and there is no authentication, so neither is modelled.
- UriComponent.Encode: strings are sequences of Unicode scalar values, so the `URIError` that `encodeURIComponent` throws for an unpaired surrogate is not modelled. On the contact page that error would leave `handleSubmit` without navigating.
- Navbar.NavigationBar.MouseEnter: accepts an enter on any level, even a level below an entry that renders no deeper menu. The hover lemmas hold for every such event.
- Text.Lower: only ASCII letters are lowered. Unicode `toLowerCase` also maps other letters.
- Text.Take: counts Unicode scalar values. JavaScript's `substring` counts UTF-16 code units, so an excerpt can differ from `ArticleCard.Excerpt` around characters outside the Basic Multilingual Plane.
- Navbar.TabOfHref: the `tab` value is the raw text up to the next `&` or `#`. `URLSearchParams` also decodes `%XX` escapes and `+`, which is not modelled.
- Navbar.IsActiveLink: the current `tab` parameter is a parameter (`Option<string>`) rather than being parsed from the location.
- Articles.Article: `created` and `updated` are integers. The store's JSON numbers could be fractional or `NaN`, and `NaN` would also hide a card's date.
- The `__typename` field of the article record is not modelled, because no core file reads it.
- Blog.CategoryValues: its own contract gives the length bound and the non-blank values. Which values it collects is proved separately in `Blog.CategoryValuesSpec`.
- The desktop dropdown links' `onClick`, which only prevents navigation for a `#` href, is not modelled. The `Link` navigation itself belongs to Next.js.
