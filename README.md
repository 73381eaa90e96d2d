# Admin dashboard of lee992/pro, modelled in Dafny

This project models the rule-bearing parts of the site's admin dashboard.

The browser side covers three scripts. `mysite/dashboard/static/js/dashboard.js` is the dashboard controller. The top-level `dashboard.js` and `mysite/dashboard/static/js/sidebar.js` are the sidebar scripts; they share their routing and theme code, which is modelled once. The modelled parts are:

- the section router: sidebar links and page sections with an `active` class, the link-click dispatch, the sidebar toggle and the load-time default page;
- the light/dark theme: the `data-theme` attribute, the `theme` entry of local storage, the checkbox, and the restyling of chart instances;
- chart creation from the canvas attributes and restyling by chart type;
- `getCookie`;
- the live user-table search with its "no results" row;
- the handling of the status-toggle reply.

The server side covers the computations of `dashboard_view` and `toggle_user_status` in `mysite/dashboard/views.py`, and `CommentAdmin.content_preview` in `mysite/dashboard/admin.py`.

State that the scripts update in place is held by classes:

- `Router.PageRouter` owns the link and section arrays;
- `Theme.ThemeManager` and `Theme.SidebarTheme` own the attribute, checkbox, storage and chart slots;
- `UserSearch.UserTable` owns the captured rows and the "no results" rows;
- `StatusToggle.StatusControls` owns a row's badge and button;
- `StatusToggle.UserAccounts` owns the map from user id to `is_active`.

Each method is proved against a specification function on values, and the lemmas state the properties of those functions.

Some browser and library behaviour is given rather than modelled:

- `toLowerCase`, `decodeURIComponent`, `JSON.parse`, Python's `int()` and the `%m-%d` date label are function parameters;
- the CSS custom properties are given values per theme;
- `confirm` is a boolean input;
- fetch replies are values of `StatusToggle.Reply`;
- the system colour preference is a boolean input.

`trim`, `substring`, `includes` and `split` are defined in `Text`.

## Model

| member | source | states |
|---|---|---|
| Seqs.FirstTrue | mysite/dashboard/static/js/dashboard.js:236-242 | the position of the first true flag, with nothing true before it; None iff no flag is true (the search a `for` loop with `break` performs) |
| Text.Trim | mysite/dashboard/static/js/dashboard.js:237 | the result is no longer than the input and neither end is JavaScript whitespace |
| Text.TrimOfPadded | mysite/dashboard/static/js/dashboard.js:237 | trimming a whitespace-padded string whose ends are not whitespace gives back exactly that string |
| Text.Head | mysite/dashboard/static/js/dashboard.js:238 | `substring(0, n)` clamps: exactly n characters when the string is that long, else the whole string; always a prefix of the string |
| Text.HeadMatchesIffStartsWith | mysite/dashboard/static/js/dashboard.js:238 | comparing the clamped head with p is exactly the test "starts with p" |
| Text.IncludesIffOccurs | mysite/dashboard/static/js/dashboard.js:263 | `includes` holds iff the substring occurs at some position |
| Text.Split | mysite/dashboard/static/js/dashboard.js:235 | `split(';')` yields at least one piece and no piece contains the separator |
| Text.JoinSplit | mysite/dashboard/static/js/dashboard.js:235 | joining the pieces of a split gives back the string |
| Text.SplitJoin | mysite/dashboard/static/js/dashboard.js:235 | splitting a join of separator-free pieces gives back the pieces |
| Cookie.Lookup | mysite/dashboard/static/js/dashboard.js:236-242 | None iff no entry matches; otherwise the decoded remainder of the first matching entry |
| Cookie.GetCookie | mysite/dashboard/static/js/dashboard.js:232-245 | returns `CookieValue`: null for an empty cookie string, else the lookup over the `;`-pieces |
| Cookie.ScanEntries | mysite/dashboard/static/js/dashboard.js:236-243 | the loop with its early `break` returns `Lookup` of the entries: the decoded value of the first matching entry, null when none matches |
| Cookie.CookieValue | mysite/dashboard/static/js/dashboard.js:233-245 | the value `getCookie` returns: null for an empty cookie string or when no `;`-piece belongs to the name, else the decoded remainder of the first piece that does |
| Cookie.EmptyCookieGuardIsRedundant | mysite/dashboard/static/js/dashboard.js:234 | the empty-string guard gives null, as the lookup over the split of "" would |
| Cookie.KeyOf | mysite/dashboard/static/js/dashboard.js:238 | the key of an entry is a prefix of it without `=`, followed in the entry by `=` or by nothing (the whole entry when it has no `=`) |
| Cookie.StartsWithKeyIff | mysite/dashboard/static/js/dashboard.js:238 | for a name without `=`, starting with `name=` is equivalent to having key `name` |
| Cookie.OtherKeyNeverMatches | mysite/dashboard/static/js/dashboard.js:238 | an entry whose key differs from the name never matches, so `csrftoken2=…` never answers for `csrftoken` |
| Cookie.TrimOfEntry | mysite/dashboard/static/js/dashboard.js:237 | a whitespace-padded `key=value` entry trims to `key=value` |
| Cookie.KeyValueMatches | mysite/dashboard/static/js/dashboard.js:238-239 | `key=value` matches name iff key is name, and its remainder is then value |
| Cookie.EntryOfPair | mysite/dashboard/static/js/dashboard.js:237-239 | a padded pair matches name iff its key is name, and its value is then read back |
| Cookie.KeyOfKeyValue | mysite/dashboard/static/js/dashboard.js:238 | the key of `k=v` is k when k has no `=` |
| Cookie.LookupCons | mysite/dashboard/static/js/dashboard.js:236-242 | the lookup takes the first entry when it matches and otherwise continues with the remaining entries |
| Cookie.LookupOfEntries | mysite/dashboard/static/js/dashboard.js:236-242 | the lookup over padded well-formed pairs yields the decoded value of the first pair with that key |
| Cookie.CookieHeaderLookup | mysite/dashboard/static/js/dashboard.js:232-245 | round trip: reading a name back from a cookie string built from well-formed pairs gives the decoded first value for that key, or null |
| Router.LinkFor | mysite/dashboard/static/js/dashboard.js:38 | the first link whose `data-target` is t; None iff there is none |
| Router.SectionFor | mysite/dashboard/static/js/dashboard.js:39 | the first section with id t; None iff t is empty or no section has that id |
| Router.SetActivePageSelectsFirstMatch | mysite/dashboard/static/js/dashboard.js:31-47 | after `setActivePage(t)` at most one link and one section are active; a link is active iff it is the first targeting t, a section iff it is the first with id t; nothing else changes |
| Router.UnknownTargetClearsEverything | mysite/dashboard/static/js/dashboard.js:31-47 | an unknown target leaves no link and no section active |
| Router.KnownTargetIsShown | mysite/dashboard/static/js/dashboard.js:41-46 | a target that some link and some section carry gets an active link and an active section |
| Router.ClickMarksOnlyTheClickedLink | mysite/dashboard/static/js/sidebar.js:30-38 | a target click leaves the clicked link active and no other link; links change only in their class |
| Router.DefaultOnCleanPage | mysite/dashboard/static/js/sidebar.js:43-47 | on a page with nothing active, the default marks exactly the first `access-requests-content` link and section |
| Router.DefaultKeepsEarlierActiveLink | dashboard.js:49-53 | the load-time default clears nothing: an earlier active link stays active beside the default one |
| Router.ControllerDispatch | mysite/dashboard/static/js/dashboard.js:49-62 | a truthy `data-target` activates it; otherwise the text `Support` gives the notice; anything else, Quit included, follows its href |
| Router.SidebarDispatch | dashboard.js:12-46 | Quit is checked first, then Support, then the target; a link with none of these navigates normally |
| Router.QuitWithTargetDiffers | dashboard.js:17-23 | a Quit link with a target asks for confirmation in the sidebar scripts but switches page in the controller |
| Router.ActivateLinks | mysite/dashboard/static/js/dashboard.js:31-47 | the links after `setActivePage(t)`: the first link targeting t is active, no other link is, and links differ from before only in `active` |
| Router.ActivateSections | mysite/dashboard/static/js/dashboard.js:31-47 | the sections after `setActivePage(t)`: the first section with id t is active, no other section is, ids unchanged |
| Router.ClickLinks | dashboard.js:37-41 | the links after a sidebar-script click on link k: link k is active, no other link is, and links differ only in `active` |
| Router.MarkLink | dashboard.js:50-53 | the load-time default on the links: the first `access-requests-content` link gains `active`, every other link keeps its class |
| Router.MarkSection | dashboard.js:50-53 | the load-time default on the sections: the first section with that id gains `active`, every other section keeps its class |
| Router.ToggleClass | mysite/dashboard/static/js/sidebar.js:4-6 | `classList.toggle` adds the class iff absent and leaves other classes alone |
| Router.ToggleTwiceRestores | mysite/dashboard/static/js/sidebar.js:4-6 | two toggles restore the body's classes |
| Router.PageRouter.ToggleSidebar | mysite/dashboard/static/js/dashboard.js:26-28 | flips `sidebar-open` on the body |
| Router.LinkForIgnoresActive | mysite/dashboard/static/js/dashboard.js:38 | the link a target selects depends only on the links' targets, not on their `active` classes |
| Router.SectionForIgnoresActive | mysite/dashboard/static/js/dashboard.js:39 | the section an id selects depends only on the sections' ids, not on their `active` classes |
| Router.PageRouter.FindLink | mysite/dashboard/static/js/dashboard.js:38 | the scan returns `LinkFor` |
| Router.PageRouter.FindSection | mysite/dashboard/static/js/dashboard.js:39 | the scan returns `SectionFor` |
| Router.PageRouter.ClearLinks | mysite/dashboard/static/js/dashboard.js:33 | every link loses `active` and nothing else about it changes |
| Router.PageRouter.ClearSections | mysite/dashboard/static/js/dashboard.js:35 | every section loses `active` and nothing else about it changes |
| Router.PageRouter.ActivateLink | mysite/dashboard/static/js/dashboard.js:33-42 | the links become `ActivateLinks` of the old ones: only the first link targeting t is active |
| Router.PageRouter.ActivateSection | mysite/dashboard/static/js/dashboard.js:35-45 | the sections become `ActivateSections` of the old ones: only the first section with id t is active |
| Router.PageRouter.SetActivePage | mysite/dashboard/static/js/dashboard.js:31-47 | the links and sections become `ActivateLinks`/`ActivateSections` of the old ones |
| Router.PageRouter.HandleLinkClick | mysite/dashboard/static/js/dashboard.js:49-62 | per dispatch: activate with preventDefault, or the Support alert with nothing changed, or default navigation with nothing changed |
| Router.PageRouter.HandleSidebarClick | dashboard.js:12-46 | Quit: preventDefault and navigation to the href only if confirmed; Support: alert, nothing changed; target: only the clicked link and the target section active; otherwise nothing |
| Router.PageRouter.MarkFirstLink | dashboard.js:50-52 | the links become `MarkLink` of the old ones: the first link targeting t gains `active`, nothing is cleared |
| Router.PageRouter.MarkFirstSection | dashboard.js:51-53 | the sections become `MarkSection` of the old ones |
| Router.PageRouter.ActivateDefaultPage | dashboard.js:49-53 | the first `access-requests-content` link and section gain `active`; nothing is cleared |
| Charts.ThemeOrLight | mysite/dashboard/static/js/dashboard.js:134 | the document's `data-theme`, or `light` when it is missing or empty |
| Charts.GetChartColors | mysite/dashboard/static/js/dashboard.js:97-107 | the grid colour is the dark constant iff the theme is `dark` and the light one otherwise; the other colours are the (trimmed) CSS variable values |
| Charts.ColoursDependOnlyOnDarkness | mysite/dashboard/static/js/dashboard.js:97-107 | two themes give the same colours iff both or neither is `dark` |
| Charts.UpdateChartTheme | mysite/dashboard/static/js/dashboard.js:109-125 | the chart shows the theme's colours: grid and ticks only for bar/line, border only for doughnut/pie, the legend colour always; type, data and the axes' border colour unchanged |
| Charts.UpdateChartThemeIdempotent | mysite/dashboard/static/js/dashboard.js:109-125 | restyling twice for one theme equals restyling once |
| Charts.UpdateChartThemeLastWins | mysite/dashboard/static/js/dashboard.js:109-125 | restyling for one theme and then another equals restyling for the last one |
| Charts.CreateDauChart | mysite/dashboard/static/js/dashboard.js:127-184 | a chart iff canvas, Chart.js and both truthy attributes exist and both parse; then a bar chart of the parsed data with the theme's axes, the theme's grid colour as the axes' border colour, and the fixed bar border |
| Charts.AxisBorderGoesStale | mysite/dashboard/static/js/dashboard.js:109-161 | after a switch between dark and light, the bar chart's axis border keeps the creation theme's colour while its grid takes the new one, so the two differ |
| Charts.CreateContentPieChart | mysite/dashboard/static/js/dashboard.js:186-229 | the same guards; a doughnut whose border and legend follow the theme |
| Charts.CreatedChartsAreStyled | mysite/dashboard/static/js/dashboard.js:127-229 | restyling a fresh chart for its own theme changes nothing except the bar chart's default legend colour |
| Charts.BuildBarChart | dashboard.js:174-216 | never throws; built iff the guards hold and both attributes parse to arrays; the bar chart then carries exactly the parsed labels and values, with the fixed border |
| Charts.BuildPieChart | dashboard.js:219-247 | throws iff the guards hold and an attribute does not parse; otherwise a doughnut with the fixed border |
| Charts.MalformedAttributeDiffers | dashboard.js:219-247 | on a malformed attribute the controller builds no chart while the top-level doughnut code throws |
| Theme.StoredTheme | mysite/dashboard/static/js/dashboard.js:83 | `getItem('theme')` is present iff the key is stored, with the stored value |
| Theme.ThemeOfCheckbox | mysite/dashboard/static/js/dashboard.js:77 | `dark` iff checked, `light` iff not |
| Theme.ThemeAtLoad | mysite/dashboard/static/js/dashboard.js:83-92 | a truthy stored theme is applied verbatim, else `dark` iff the system prefers dark |
| Theme.CheckedAtLoad | mysite/dashboard/static/js/dashboard.js:83-92 | the checkbox is `stored == 'dark'` when a theme is stored, else the preference |
| Theme.LoadAgrees | mysite/dashboard/static/js/dashboard.js:83-92 | after load the checkbox is checked iff the theme is `dark` |
| Theme.Restyle | mysite/dashboard/static/js/dashboard.js:71-73 | only an existing chart is restyled, and then it shows the theme's colours |
| Theme.ThemeManager.ApplyTheme | mysite/dashboard/static/js/dashboard.js:69-74 | sets `data-theme` and restyles exactly the existing charts; checkbox and storage unchanged |
| Theme.ThemeManager.ToggleTheme | mysite/dashboard/static/js/dashboard.js:76-80 | stores and applies `dark` iff checked; checkbox and theme agree and the charts match it |
| Theme.ThemeManager.ChangeCheckbox | mysite/dashboard/static/js/dashboard.js:94 | after a change the attribute and the stored `theme` key are the theme the checkbox shows, other storage keys are kept, and each existing chart is restyled for that theme |
| Theme.ThemeManager.LoadTheme | mysite/dashboard/static/js/dashboard.js:83-92 | applies `ThemeAtLoad` and sets `CheckedAtLoad`, storage untouched |
| Theme.ThemeManager.InitializeCharts | mysite/dashboard/static/js/dashboard.js:346-347 | both chart slots hold the charts created in the document's current theme |
| Theme.LoadStoredOnly | mysite/dashboard/static/js/sidebar.js:49-55 | nothing stored: nothing changes; stored: the attribute is the stored value, and the checkbox becomes checked if it is `dark` and is never unchecked |
| Theme.LoadStoredOnlyAgreement | dashboard.js:56-62 | from an unchecked box the stored-only load agrees with the theme; a box that starts checked stays checked over a stored `light` |
| Theme.LoadRulesAgreeOnStoredTheme | dashboard.js:56-62 | with a theme stored and the box unchecked, the two load rules give the same attribute and checkbox |
| Theme.SidebarTheme.LoadStoredTheme | mysite/dashboard/static/js/sidebar.js:49-55 | the attribute and checkbox become `LoadStoredOnly` of the stored value and the old state |
| Theme.SidebarTheme.ChangeCheckbox | mysite/dashboard/static/js/sidebar.js:57-61 | the attribute and the stored value are `dark` iff checked, else `light` |
| UserSearch.SearchTerm | mysite/dashboard/static/js/dashboard.js:253 | the folded, trimmed query is no longer than the folded input |
| UserSearch.FilterRow | mysite/dashboard/static/js/dashboard.js:256-268 | a row with at least three cells is shown iff the term is in folded cell 0, 1 or 2; other rows are untouched |
| UserSearch.VisibleCount | mysite/dashboard/static/js/dashboard.js:254-268 | the final `visibleRows`: at most the number of rows, and (with `VisibleCountIsShownCount`) the number of data rows left on display |
| UserSearch.NoResultsAfter | mysite/dashboard/static/js/dashboard.js:271-278 | with nothing shown for a non-empty term there is a "no results" row: the existing one kept, or a new one naming the query; otherwise the first is removed |
| UserSearch.FilterUpTo | mysite/dashboard/static/js/dashboard.js:256-269 | the first n rows are filtered, the rest untouched |
| UserSearch.FirstThrowing | mysite/dashboard/static/js/dashboard.js:257-261 | the first two-cell row, whose missing third cell throws; None iff there is none |
| UserSearch.NoResultsAtMostOne | mysite/dashboard/static/js/dashboard.js:271-278 | from at most one "no results" row there is again at most one, and one exactly when nothing is shown for a non-empty term |
| UserSearch.NoResultsMessageIsNotRefreshed | mysite/dashboard/static/js/dashboard.js:271-278 | an existing "no results" row keeps naming the earlier query when the next query also finds nothing |
| UserSearch.ShownPrefix | mysite/dashboard/static/js/dashboard.js:256-269 | filtering all rows agrees with filtering all but the last on that prefix |
| UserSearch.VisibleCountIsShownCount | mysite/dashboard/static/js/dashboard.js:254-269 | `visibleRows` equals the number of data rows left on display |
| UserSearch.IncludesEmpty | mysite/dashboard/static/js/dashboard.js:263 | every string includes the empty string |
| UserSearch.EmptyTermCountsEveryDataRow | mysite/dashboard/static/js/dashboard.js:254-269 | for the empty term the count is the number of data rows |
| UserSearch.EmptyQueryShowsAll | mysite/dashboard/static/js/dashboard.js:252-279 | an empty query shows every data row, counts them all and removes the "no results" row |
| UserSearch.VisibleCountStep | mysite/dashboard/static/js/dashboard.js:263-268 | counting one more row adds one exactly when it is a data row that matches |
| UserSearch.FilterUpToStep | mysite/dashboard/static/js/dashboard.js:256-269 | one more step of the filter rewrites that row alone; a row with at most one cell stays as it is |
| UserSearch.UserTable.ShowIfMatching | mysite/dashboard/static/js/dashboard.js:259-268 | for a data row: the result is whether a folded cell 0, 1 or 2 holds the term, that row becomes `FilterRow` of itself and no other row changes |
| UserSearch.UserTable.FilterRows | mysite/dashboard/static/js/dashboard.js:254-269 | the rows become `FilterUpTo` up to the first throwing row; the count is `VisibleCount`, or the failure names that row |
| UserSearch.UserTable.Search | dashboard.js:76-103 | the rows are filtered as above; on completion the "no results" rows become `NoResultsAfter`, on failure they are unchanged |
| StatusToggle.ToggleOutcome | mysite/dashboard/views.py:80-90 | self: 403 with its message, nothing changed; unknown id: 404, nothing changed; otherwise that user's `is_active` is negated, no other user changes, and the reply is success with the new value |
| StatusToggle.ToggleTwiceRestores | mysite/dashboard/views.py:86 | toggling the same other user twice restores every account |
| StatusToggle.ToggleChangesAtMostOne | mysite/dashboard/views.py:80-90 | the accounts change iff the reply is 200, and then only the toggled user changes |
| StatusToggle.UserAccounts.ToggleUserStatus | mysite/dashboard/views.py:80-90 | the new accounts and the reply are `ToggleOutcome` of the old accounts |
| StatusToggle.ViewFor | mysite/dashboard/static/js/dashboard.js:305-315 | the active badge and deactivate button iff active, the inactive pair iff not |
| StatusToggle.ShownState | mysite/dashboard/static/js/dashboard.js:305-315 | a state read back from a row is the state its view shows |
| StatusToggle.ViewForAgreesAndReadsBack | mysite/dashboard/static/js/dashboard.js:305-315 | every patch leaves badge and button agreeing, and the state reads back |
| StatusToggle.MessageOr | mysite/dashboard/static/js/dashboard.js:297 | the server's message when truthy, else the fallback |
| StatusToggle.ReplyEffect | mysite/dashboard/static/js/dashboard.js:296-324 | a patch iff the reply is ok, parses and has status `success`, active iff `is_active` is true; a failed reply alerts with its message or the fallback; another status alerts with `오류: ` and the message |
| StatusToggle.StatusControls.HandleReply | dashboard.js:135-164 | a patch sets the badge and button to `ViewFor`; an alert leaves the row unchanged and returns its text |
| StatusToggle.Delivered | mysite/dashboard/static/js/dashboard.js:296 | the reply is ok iff the status code is 2xx, and carries the server's body |
| StatusToggle.ClientShowsServerState | mysite/dashboard/views.py:80-90 | after a successful toggle the row shows the state the server now holds; a refused toggle alerts with the server's message |
| DashboardView.NumPages | mysite/dashboard/views.py:25 | at least one page, enough pages for every user and no empty last page |
| DashboardView.SelectPage | mysite/dashboard/views.py:24-29 | the requested page when it is an integer in range, else page 1; always a valid page |
| DashboardView.PageItems | mysite/dashboard/views.py:25-27 | a page holds at most ten users, and at least one if there are users |
| DashboardView.PagesUpToIsPrefix | mysite/dashboard/views.py:25-27 | the first k pages together are the first 10k users |
| DashboardView.PagesPartitionList | mysite/dashboard/views.py:25-27 | the pages, in order, are exactly the user list |
| DashboardView.CountOn | mysite/dashboard/views.py:49 | at most one count per user |
| DashboardView.CountBetween | mysite/dashboard/views.py:47-49 | at most one count per user |
| DashboardView.Window | mysite/dashboard/views.py:47-51 | n counts, the k-th being the count of day lo + k |
| DashboardView.CountBetweenSplit | mysite/dashboard/views.py:47-49 | a range of days splits into its first day and the rest |
| DashboardView.CountBetweenEmpty | mysite/dashboard/views.py:47-49 | an empty range of days counts nobody |
| DashboardView.WindowSumIsCountBetween | mysite/dashboard/views.py:47-51 | the daily counts sum to the number of users whose last login is in the window |
| DashboardView.DauTotalAtMostUsers | mysite/dashboard/views.py:44-51 | the seven counts add up to the users last seen that week, never more than all users |
| DashboardView.DailyActiveUsers | mysite/dashboard/views.py:44-51 | seven labels and seven counts for the days today-6 to today, oldest first |
| DashboardView.KindOfLabel | mysite/dashboard/views.py:54 | a label names the kind whose label it is |
| DashboardView.LabelsNameTheirKind | mysite/dashboard/views.py:54 | every kind's label names that kind back |
| DashboardView.ContentDistribution | mysite/dashboard/views.py:54-55 | four distinct labels and four values, value i being the count of the kind label i names |
| CommentAdmin.ContentPreview | mysite/dashboard/admin.py:16-18 | content of at most 30 characters is returned as is; longer content becomes its first 30 characters and `...` |
| CommentAdmin.PythonHead | mysite/dashboard/admin.py:18 | `content[:30]` is the clamped prefix |
| CommentAdmin.PreviewShape | mysite/dashboard/admin.py:18 | a preview has at most 33 characters, exactly 33 when cut, and starts with `content[:30]` |
| CommentAdmin.PreviewIdempotent | mysite/dashboard/admin.py:18 | previewing a preview returns it unchanged |
| Dashboard.LoadDashboard | mysite/dashboard/static/js/dashboard.js:339-350 | at start-up the theme is loaded (lines 83-92, storage untouched), then `initializeDashboard` shows `home-content` and creates both charts in the loaded theme, with checkbox and theme agreeing |
| Dashboard.LoadedChartFollowsPreference | mysite/dashboard/static/js/dashboard.js:83-92 | with nothing stored and a dark preference the bar chart gets the dark grid; with `light` stored it gets the light grid |

## Left out

- Rendering, Chart.js internals, the chart option objects beyond their colours, the `update()` redraw and the canvas context are not modelled.
- Dashboard.LoadDashboard: the start-up code dereferences `#sidebar-toggle`, `#theme-toggle` and `#celebrate-btn` (mysite/dashboard/static/js/dashboard.js:26, 85-90, 328) without a null check, so a page missing one of them throws before `initializeDashboard` (line 350) and nothing is activated or drawn. In the sidebar scripts a missing `#sidebar-toggle` (dashboard.js:2, mysite/dashboard/static/js/sidebar.js:4) stops the whole script, and a missing `#theme-toggle` (dashboard.js:61, 64) stops the handler before search and the status toggle are installed. The model assumes all these elements exist.
- `Charts.GetChartColors`: reading a CSS custom property and calling `trim()` on it are one given value of `Charts.CssVariables`, so the three trims in `getChartColors` are not spelled out there.
- A chart whose construction throws inside Chart.js is not modelled: a model chart is built whenever the guards and the parse succeed.
- `toLowerCase`, `decodeURIComponent`, `JSON.parse`, `int()` and the `%m-%d` label format are given functions. A `decodeURIComponent` that throws on a malformed escape is not modelled.
- `Router.LinkFor` searches the links the router owns. The controller's selector `.sidebar a[...]` also reaches sidebar anchors outside `ul`, and a target containing `"` would make the selector throw. Neither is modelled.
- `Router.SectionFor` looks only among the `.page-content` sections, whereas `getElementById` searches the whole document.
- The quick-link cards reach `Router.PageRouter.HandleLinkClick` as the clicked `Link` value. Their own classes are not modelled, since the handler never changes them.
- `alert`, `confirm`, `window.location` and `event.preventDefault` become values of `Router.ClickOutcome` or returned alert texts.
- The search term is injected into the "no results" row through `innerHTML`. The model keeps the message text only, so markup in the query is not interpreted.
- fetch, promises and the CSRF header are not modelled. A settled request is a `StatusToggle.Reply`, and the header value comes from `Cookie.GetCookie`.
- The rows of the user table are captured once when the page loads, as in both scripts. Rows added later are not filtered.
- Sidebar support button of `dashboard.js` (lines 168-170) only shows an alert and is not modelled. The confetti button (mysite/dashboard/static/js/dashboard.js:328-336) calls a foreign library and is left out too.
- The monthly-active-users count (mysite/dashboard/views.py:38-40), the summary counts, the recent users and posts, and the template rendering are database queries with no rule of their own.
- `login_required`, `require_POST` and `save(update_fields=…)` are framework plumbing. The ORM is an abstract map from id to `is_active`, and dates are integer day numbers.
- Django's `Paginator` is outside the repository. It is modelled with ten users per page, no orphans and an empty first page allowed; the user list's order is not modelled.
- models.py, forms.py, urls.py, charts.js and the admin registrations declare schema and configuration only, so they are not part of this model.
