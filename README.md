# Route sequencing and navigation links of a travel planner, in Dafny

This project models the logic core of a travel-planning web application
written in TypeScript (Next.js/React). Users search places and blog posts,
assemble an ordered route of places, and open that route in the Naver Map or
T map navigation apps.

The model covers:

- **Route sequencing.** A route is a list of route points. Each point is a
  place tagged `start`, `waypoint` or `end`. The editors add a place (a
  duplicate id is refused), remove by id, and drag a point from one index to
  another. After each edit the roles are derived from position: index 0 is
  the start, the last index is the end when there are two or more points, and
  every other point is a waypoint (`RouteSequence`, `RouteList`,
  `NavigationComponent`, `RouteCreate`).
  - The navigation page's add patches only the last two roles. It is proved
    to agree with the full recompute whenever the old roles were right.
  - The route-creation page stores a reordered list exactly as it gets it.
- **Navigation links.** The navigation endpoint builds
  `nmap://route/public?…` and `tmap://route?…` deep links: start,
  destination, then numbered waypoint groups, in a fixed order, with at most
  five T map pass points (`NavigationApi`). The navigation page also builds
  its own T map link and a Naver web link, which follow a different scheme
  (`NavigationComponent`).
- **The small cores around it:**
  - the bounded most-recently-used list of recent places (`RecentPlaces`);
  - the in-memory place store and favorites store of two endpoints
    (`PlacesApi`, `FavoritesApi`);
  - the mock catalogue with its paginated search (`MockData`, `Paging`);
  - tag stripping and blog-item conversion (`Markup`, `BlogApi`);
  - duplicate detection in the place-search form (`CustomPlaceForm`);
  - the save dialog's checks and normalisation (`SaveRouteModal`);
  - the selected-first ordering of search results (`SearchResults`);
  - image URL rewriting on the place card (`Card`);
  - relative URL resolution and the image choice of the blog-metadata
    endpoint (`BlogMetadata`);
  - content-type selection of the image proxy (`ImageProxy`);
  - the fixed-data search endpoint (`SearchApi`);
  - the sign-up form's state machine (`SignupModal`).

Conventions used throughout:

- An optional field is an `Option`.
- JavaScript truthiness of an optional string is `Common.Truthy`.
- A template literal renders an absent field as the text `undefined`
  (`Common.Show`).
- `encodeURIComponent` (section 2.1 of RFC 3986), `toLowerCase`, `new URL`
  parsing, uuid generation, and every network or storage result are
  parameters. The model does not interpret them.
- A handler is one sequential state transition.
- Module-level mutable state is a class: `PlacesApi.PlaceStore`,
  `FavoritesApi.FavoritesStore`, and `SignupModal.SignupForm` for the form.
- Loops and in-place updates in the source are methods with loop invariants:
  - the `splice` move of a drag (`RouteSequence.MoveAndRetag`, on an array);
  - the `forEach` that appends T map pass groups
    (`NavigationApi.CreateTmapUri`);
  - the `+=` loop of the T map launch link
    (`NavigationComponent.LaunchTmapNavigation`);
  - `Array.from(map.values())` (`FavoritesApi.FavoritesStore.GetAll`).

Points of the code's behaviour that are easy to get wrong, and that the
model follows as written:

- The Naver link uses `nmap://route/public?`, `wp{n}` waypoint groups and a
  trailing `mode=car`.
- The T map link of the endpoint keeps the first five waypoints as
  `passx{n}/passy{n}/passname{n}` and drops the rest. It never fails on a
  point count.
- A missing coordinate is not an error. It is interpolated as `undefined`
  into the link.
- A reorder is not checked against the current ids. The route-creation page
  stores whatever list it is given (`RouteCreate.HandleReorder`). The only
  caller, the route list, always passes a moved copy, and
  `RouteCreate.DragThenReorderKeepsWellFormed` proves that this copy keeps
  the invariant.
- Removing an absent id is a no-op in every editor
  (`RouteSequence.RemoveAbsentIsNoop`).

## Model

| member | source | states |
|---|---|---|
| `RouteSequence.Retag` | components/NavigationComponent.tsx:114-119 | re-deriving roles by position yields a list that satisfies the role rule and keeps the same places in the same order |
| `RouteSequence.RetagFixesExactlyValid` | components/RouteList.tsx:45-50 | the role recompute leaves a list unchanged exactly when its roles already followed the positional rule |
| `RouteSequence.InitialRoute` | components/NavigationComponent.tsx:94-101 | initial places get roles by the positional rule, keep their order, and a single place is the start |
| `RouteSequence.AddToRoute` | app/route/create/RouteCreateClient.tsx:53-73 | add is refused exactly when the id is already in the route; otherwise the places are the old ones plus the new one last, and roles follow positions |
| `RouteSequence.AddToRouteKeepsWellFormed` | app/route/create/RouteCreateClient.tsx:60-71 | an accepted add keeps roles positional and ids unique, grows the route by one, and puts the new place last with its positional role |
| `RouteSequence.RemoveFromRoute` | app/route/create/RouteCreateClient.tsx:77-88 | removal keeps exactly the places with another id, in order, no point with the id remains, and roles follow positions |
| `RouteSequence.RemoveFromRouteIds` | components/NavigationComponent.tsx:305-316 | the ids after removal are the old ids with every occurrence of the removed id filtered out |
| `RouteSequence.RemoveAbsentIsNoop` | components/NavigationComponent.tsx:305-316 | removing an id that is absent from a well-tagged route returns the route unchanged |
| `RouteSequence.RemoveFromRouteKeepsWellFormed` | app/route/create/RouteCreateClient.tsx:77-88 | removal keeps the route well formed, and every other id keeps all of its occurrences |
| `RouteSequence.MoveAndRetag` | components/RouteList.tsx:40-50 | the in-place splice on a copied array, followed by the role recompute, yields exactly the moved-and-retagged route |
| `RouteSequence.CloseGap` | components/RouteList.tsx:41 | after the in-place removal, the array's first n-1 slots hold the old items without the one at `source`, in order |
| `RouteSequence.OpenGap` | components/RouteList.tsx:42 | after the in-place insertion, the array holds its first n-1 items with `moving` inserted at `destination` |
| `RouteSequence.MoveAndRetagSpec` | components/RouteList.tsx:40-50 | a drop keeps length and places (as a multiset), the dragged place lands at the destination, the others keep their relative order, roles follow positions, and unique ids stay unique |
| `RouteSequence.DefaultRouteName` | app/route/create/RouteCreateClient.tsx:209-210 | the suggested name is empty exactly for an empty route and otherwise starts with the first title and a space |
| `RouteSequence.DefaultRouteNameDeterminesCount` | components/SaveRouteModal.tsx:43 | two routes with the same first title and the same suggested name have the same length, so the `외 {n-1}곳` suffix encodes the count |
| `Seqs.MovedSpec` | components/RouteList.tsx:40-42 | the splice move keeps the length and multiset, puts the moved element at the destination, and leaves the other elements in their relative order |
| `RouteList.HandleDragEnd` | components/RouteList.tsx:37-53 | with no destination, `onReorder` is not called; otherwise it is called once with the moved and retagged list |
| `NavigationComponent.AddPlaceToRoute` | components/NavigationComponent.tsx:258-278 | a duplicate id is ignored; otherwise the new place is last with its positional role, earlier points before the old last are untouched, and on a well-tagged route the result equals the full recompute |
| `NavigationComponent.AddPlaceToRouteKeepsWellFormed` | components/NavigationComponent.tsx:262-277 | on a well-formed route, an accepted incremental add yields a well-formed route one point longer |
| `NavigationComponent.HandleCustomPlaceAdd` | components/NavigationComponent.tsx:281-296 | a blank name adds nothing; otherwise the place `custom-{uuid}` titled with the trimmed name is added to the route as the route editor adds any place (unless that id is present), so the first point stays the start, the last the end and the rest waypoints, and the input is cleared |
| `NavigationComponent.HandleDragEnd` | components/NavigationComponent.tsx:106-122 | a drop with no destination is a no-op; otherwise the route is the moved and retagged route |
| `NavigationComponent.HandleDragEndKeepsWellFormed` | components/NavigationComponent.tsx:106-122 | a drop keeps a well-formed route well formed and keeps its multiset of places |
| `NavigationComponent.LaunchTmapNavigation` | components/NavigationComponent.tsx:354-379 | fewer than two points gives no link; otherwise the `+=` loop over the interior points yields exactly the specified launch link (`startname`, `goalname`, then `passname{i}` from 0) |
| `NavigationComponent.PassNamesAppended` | components/NavigationComponent.tsx:375-377 | each `+=` step only extends the link, so the start and goal names stay its prefix |
| `NavigationComponent.TmapLaunchLinkShape` | components/NavigationComponent.tsx:371-379 | the launch link starts with the first title as `startname` and the last as `goalname`; two points give no pass names; three give exactly `&passname0=` with the middle title |
| `NavigationComponent.WebLabelsDistinct` | components/NavigationComponent.tsx:417-420 | the web link gives different points different labels (`sname`, `dname`, `waypoint{k-1}`) |
| `NavigationComponent.NaverWebLink` | components/NavigationComponent.tsx:410-423 | fewer than two points gives no link; otherwise the link starts with the directions prefix and `sname=` of the first title, ends with `&dname=` of the last title and `&pathType=0`, and holds `&waypoint{k-1}=` of every interior point `k` |
| `NavigationComponent.WebLinkLabels` | components/NavigationComponent.tsx:417-423 | in the joined web link the first point sits under `sname`, the last under `dname` and interior point `k` under `waypoint{k-1}` |
| `NavigationComponent.LoadMoreStart` | components/NavigationComponent.tsx:206-219 | `loadMore` asks for results only when not loading, more are announced and there is a query, starting at `(page+1)*9+1` |
| `NavigationComponent.LoadMoreDone` | components/NavigationComponent.tsx:221-254 | non-empty items are appended, the page advances, and hasMore is "fewer than total"; an empty or failed response ends paging and keeps the results |
| `NavigationComponent.LoadMoreContiguous` | components/NavigationComponent.tsx:218-236 | when a load leaves a next page to ask for, it starts nine results after the block it loaded |
| `NavigationApi.StartIndex` | app/api/navigation/route.ts:36 | the start is a `start`-typed point with no `start`-typed point before it, and there is none exactly when no point is so typed |
| `NavigationApi.EndIndex` | app/api/navigation/route.ts:38-39 | the destination is an `end`-typed point with none before it; only when no point is `end`-typed is it the last point (with two or more points), and otherwise none |
| `NavigationApi.CreateNaverMapUri` | app/api/navigation/route.ts:34-73 | the pushed parameters are the start group, the destination group unless it is the start, the joined waypoint groups, and `mode=car`, appended to `nmap://route/public?` |
| `NavigationApi.CreateTmapUri` | app/api/navigation/route.ts:76-113 | the `forEach` pushes one pass group per waypoint among the first five, after the start and destination groups, appended to `tmap://route?` |
| `NavigationApi.NavigationPost` | app/api/navigation/route.ts:4-31 | an unreadable body gives 500; missing or empty points give 400; only `naver`/`tmap` give a link (the matching builder's); any other type gives 400 |
| `NavigationApi.NaverUriShape` | app/api/navigation/route.ts:42-70 | a Naver link starts with `nmap://route/public?` and ends with `mode=car` |
| `NavigationApi.TmapUriShape` | app/api/navigation/route.ts:84-92 | a T map link starts with `tmap://route?`, followed by the start group when there is a start |
| `NavigationApi.SelectionOnValidRoute` | app/api/navigation/route.ts:36-39 | on a well-tagged route the start is point 0, the destination is the last point iff there are two or more, and the waypoints are exactly the interior points |
| `NavigationApi.WaypointsOfValidRoute` | app/api/navigation/route.ts:37 | on a well-tagged route of two or more points, the waypoint filter yields exactly the interior points in order |
| `NavigationApi.NaverParamsOfValidRoute` | app/api/navigation/route.ts:45-70 | on a well-tagged route the parameters are first point's start group, last point's destination group (none for one point), waypoints `wp1…` from the interior, then `mode=car` |
| `NavigationApi.TmapPassCap` | app/api/navigation/route.ts:99-107 | the T map parameters hold one pass group per waypoint up to five, numbered 1 to at most 5, in order |
| `NavigationApi.TmapPassGroups` | app/api/navigation/route.ts:103-105 | the `forEach` pushes exactly one group per waypoint it visits |
| `NavigationApi.PassGroupsExtend` | app/api/navigation/route.ts:103-105 | one more `forEach` step appends the next waypoint's group, numbered by its position plus one |
| `NavigationApi.PassGroupAt` | app/api/navigation/route.ts:104 | the group at position k is the one of waypoint k, numbered k+1 |
| `NavigationApi.CappedPassGroups` | app/api/navigation/route.ts:101-105 | `slice(0, 5)` leaves at most five groups, numbered 1 to at most 5 from the first waypoints in order |
| `NavigationApi.PassGroupsAfter` | app/api/navigation/route.ts:99-109 | whatever the start and destination groups, the pass groups follow them, in waypoint order |
| `NavigationApi.TmapSinglePoint` | app/api/navigation/route.ts:89-97 | a single start point yields only the start group: no destination, no pass point |
| `RouteCreate.HandleReorder` | app/route/create/RouteCreateClient.tsx:92-94 | the given order is stored verbatim, with no id check and no role recompute |
| `RouteCreate.DragThenReorderKeepsWellFormed` | app/route/create/RouteCreateClient.tsx:92-94 | the list the route list hands back after a drag keeps the page's route well formed |
| `RouteCreate.HandleReorderAcceptsDuplicates` | app/route/create/RouteCreateClient.tsx:92-94 | a list that repeats a place is stored as it is, so the store alone does not keep ids unique |
| `RouteCreate.LaunchNavigation` | app/route/create/RouteCreateClient.tsx:97-119 | an empty route is refused first, then a non-mobile browser; it proceeds exactly for a non-empty route on mobile, with a T map request carrying the route |
| `RouteCreate.ViewNaverMap` | app/route/create/RouteCreateClient.tsx:149-167 | an empty route is refused; otherwise a Naver request carries the route |
| `RouteCreate.PageRequestsAreAccepted` | app/route/create/RouteCreateClient.tsx:108-119 | every request the page sends has points and a supported type, so the endpoint's 400 branches never fire for it |
| `RouteCreate.OpenSaveModal` | app/route/create/RouteCreateClient.tsx:195-214 | an empty route is refused first, then a missing user; it opens exactly for a non-empty route with a user, with the non-empty suggested name |
| `RouteCreate.SettleLink` | app/route/create/RouteCreateClient.tsx:243-297 | a known link is kept without a request; otherwise a thrown request aborts, an error status keeps the empty link, and an answer gives its `uri` or "" |
| `RouteCreate.HandleSaveRoute` | app/route/create/RouteCreateClient.tsx:217-306 | a missing user is refused first, then an empty route, then an empty or cancelled name; past those it fails exactly when a link request throws and proceeds exactly when both links settle, with the route, the user's id, the name and the settled links |
| `RouteCreate.GuardOrder` | app/route/create/RouteCreateClient.tsx:196-227 | opening the dialog on an empty route without a user reports the empty route while saving reports the login, and no action proceeds on an empty route |
| `SaveRouteModal.NameOnOpen` | components/SaveRouteModal.tsx:41-46 | opening on a non-empty route sets the suggested name; otherwise the name is kept |
| `SaveRouteModal.LinkFrom` | components/SaveRouteModal.tsx:67-124 | a link is non-empty exactly when its request answered OK with a non-empty `uri`; a failed request leaves "" |
| `SaveRouteModal.NormalizePoint` | components/SaveRouteModal.tsx:129-138 | a saved point keeps id, title, description, blogger name and role; each of mapx, mapy, address, roadAddress, link and image keeps a non-empty value and otherwise becomes "" |
| `SaveRouteModal.NormalizePointIdempotent` | components/SaveRouteModal.tsx:129-138 | normalising a saved point again changes nothing |
| `SaveRouteModal.HandleSave` | components/SaveRouteModal.tsx:48-142 | no save without a user id; a blank name is refused; a save has the trimmed non-empty name, the normalised points in order, and the two links, whose failure does not stop it |
| `SaveRouteModal.HandleSaveKeepsRoute` | components/SaveRouteModal.tsx:129-138 | the saved points have the route's ids in order, and a well-formed route is saved well formed |
| `CustomPlaceForm.IsPlaceAlreadyAdded` | components/CustomPlaceForm.tsx:36-51 | a candidate is a duplicate iff some route point matches it: by both coordinates when both sides have both, else by tag-stripped title |
| `CustomPlaceForm.SearchPlace` | components/CustomPlaceForm.tsx:82-110 | a blank name searches nothing; a thrown search is reported; an answer gives results exactly when it has items, and the no-results message otherwise; results keep count and order and each gets the duplicate flag |
| `CustomPlaceForm.SelectPlace` | components/CustomPlaceForm.tsx:113-133 | a flagged result (or no handler) adds nothing; otherwise the place keeps its id or gets `custom-{uuid}`, has the tag-stripped title, the category or default description, and the copied coordinates and addresses |
| `CustomPlaceForm.SelectedPlaceIsFlaggedAfterwards` | components/CustomPlaceForm.tsx:121-130 | once a chosen result is in the route, the same result is flagged as a duplicate |
| `PlacesApi.Sanitize` | app/api/places/route.ts:18-20 | tags are stripped, then surrounding white space is trimmed: the id neither starts nor ends with white space and occurs inside the tag-stripped text |
| `PlacesApi.SanitizeTagFree` | app/api/places/route.ts:18-20 | a sanitised id contains no tag |
| `PlacesApi.SanitizeIdempotent` | app/api/places/route.ts:18-20 | sanitising twice equals sanitising once |
| `PlacesApi.SpliceIsFilter` | app/api/places/route.ts:43-46 | with unique ids, the `findIndex`+`splice` removal equals filtering out the id |
| `PlacesApi.SpliceLeavesOthers` | app/api/places/route.ts:43-46 | with unique ids, the entries left after `findIndex`/`splice` are exactly those with another id |
| `PlacesApi.UnshiftThenPop` | app/api/places/route.ts:47-52 | `unshift` followed by `pop` past ten entries on the other entries is the move-to-front of the home page |
| `PlacesApi.SpliceToFront` | app/api/places/route.ts:42-52 | the endpoint's splice, unshift and pop compute exactly the move-to-front list |
| `PlacesApi.Lookup` | app/api/places/route.ts:61-102 | no id gives the whole recent list; a lookup tries the sanitised then the raw id; a miss gives the sample place; suggestions are the first five other recent places, in order |
| `PlacesApi.Suggestions` | app/api/places/route.ts:93-95 | the suggestions are the first five recent places without the id (all of them when fewer), in recency order, a subsequence of the recent list |
| `PlacesApi.PlaceStore.constructor` | app/api/places/route.ts:14-15 | the store starts with no places and an empty recent list |
| `PlacesApi.PlaceStore.Post` | app/api/places/route.ts:22-59 | an unreadable body (500) and a missing place or id (400) change nothing; otherwise the place is stored under its sanitised id and moved to the front of the recent list, which stays unique and at most 10 long |
| `PlacesApi.PlaceStore.Get` | app/api/places/route.ts:61-102 | GET answers the lookup on the current state |
| `PlacesApi.PostThenLookup` | app/api/places/route.ts:32-74 | after a POST, a GET by the posted id, or by the stored id, finds the stored place |
| `RecentPlaces.MoveToFront` | app/page.tsx:61-64 | the selected place is first, no other entry has its id, at most 10 entries remain, and the rest are the first nine older entries with other ids, in order |
| `RecentPlaces.MoveToFrontKeepsUnique` | app/page.tsx:63 | a recent list with unique ids keeps unique ids |
| `RecentPlaces.MoveToFrontIdempotent` | app/page.tsx:61-64 | selecting the same place twice in a row changes nothing the second time |
| `HomePage.HandleSearch` | app/page.tsx:22-52 | non-empty results replace the list; an empty query reloads the stored recent places; otherwise the list is empty; paging is off and the total is the count |
| `FavoritesApi.FavoritesStore.constructor` | app/api/favorites/route.ts:14 | the favorites map starts empty |
| `FavoritesApi.FavoritesStore.Post` | app/api/favorites/route.ts:16-33 | an unreadable body (500) and a missing place or id (400) change nothing; otherwise the place is stored under its id, overwriting any earlier entry |
| `FavoritesApi.FavoritesStore.Delete` | app/api/favorites/route.ts:35-47 | a missing id is refused; otherwise `removed` says whether the id was present, and afterwards it is absent |
| `FavoritesApi.FavoritesStore.GetAll` | app/api/favorites/route.ts:49-53 | the answer is exactly the stored values, in insertion order |
| `FavoritesApi.DeleteAbsentIsNoop` | app/api/favorites/route.ts:43-46 | deleting an absent id changes neither the map nor the key order |
| `MockData.MockPlaces` | lib/data.ts:11-17 | there are exactly 50 mock places |
| `MockData.MockPlacesShape` | lib/data.ts:11-17 | mock place i has id `place-{i+1}` and has an image iff i mod 3 = 0 |
| `MockData.MockIdsDistinct` | lib/data.ts:13 | no two mock places share an id |
| `MockData.Filtered` | lib/data.ts:32-37 | an empty query selects all places; otherwise exactly the places whose lower-cased title or description contains the lower-cased query, in catalogue order |
| `MockData.SearchPlaces` | lib/data.ts:23-49 | a page is the slice at `page*limit` of the selection, `hasMore` iff `page*limit+limit` is below the count, and `total` is the count on every page |
| `MockData.SearchPagesComplete` | lib/data.ts:40-46 | reading pages 0..p, where page p reports nothing more, yields the whole selection |
| `MockData.GetPlaceById` | lib/data.ts:52-58 | the result is the mock place with that id, or null when none has it |
| `MockData.GetPlaceByIdFindsEach` | lib/data.ts:56-57 | every `place-k` with 1 ≤ k ≤ 50 finds the k-th mock place |
| `Paging.Page` | lib/data.ts:40-42 | a page has at most `limit` items, read in order from `page*limit`, and exactly `limit` when the list is long enough |
| `Paging.PageStartIsProduct` | lib/data.ts:40 | the page start is `page*limit` |
| `Paging.PagesCover` | lib/data.ts:40-42 | pages 0..k-1 read one after another are the list's first `k*limit` elements, with no gap or overlap |
| `Paging.LastPageCompletes` | lib/data.ts:46 | once a page reports nothing more, the pages read so far are the whole list |
| `Markup.StripTags` | lib/api.ts:49 | the stripped text is never longer than the input |
| `Markup.StripTagsIsTagFree` | lib/api.ts:49 | after stripping, the tag pattern matches nowhere |
| `Markup.StripTagsKeepsTagFree` | lib/api.ts:49 | text the pattern does not match is returned unchanged |
| `Markup.StripTagsIdempotent` | lib/api.ts:49 | stripping twice equals stripping once |
| `Markup.StripTagsClosedTag` | lib/api.ts:49 | a complete tag `<t>` is removed together with its brackets |
| `Markup.StripTagsOpenTag` | lib/api.ts:49 | an unterminated trailing `<t` is removed to the end |
| `Markup.StripTagsPlainPrefix` | lib/api.ts:49 | a prefix without `<` is kept as it is and stripping continues after it |
| `Text.TrimEmptyIffBlank` | components/NavigationComponent.tsx:282 | a name trims to nothing exactly when it is all white space |
| `Text.TrimSpec` | components/SaveRouteModal.tsx:128 | the trimmed name neither starts nor ends with white space and occurs in the original |
| `Text.TrimIdempotent` | components/SaveRouteModal.tsx:128 | trimming twice equals trimming once |
| `BlogApi.RemoveHtmlTags` | lib/api.ts:47-50 | the empty input gives ""; the result contains no tag |
| `BlogApi.RemoveHtmlTagsIsStripTags` | lib/api.ts:47-50 | the empty-input guard agrees with plain stripping |
| `BlogApi.BlogPlace` | lib/api.ts:113-137 | the id is the item's, or `blog-{index+1}`; title and description are stripped, with `제목 없음`/`설명 없음` when empty; the image is a non-empty metadata image, else `FALLBACK_IMAGES[index mod 5]` |
| `BlogApi.ConvertBlogItemToPlace` | lib/api.ts:113-137 | building the place with the fallback image and then overwriting it yields the specified place |
| `BlogApi.ConvertBlogItemsToPlaces` | lib/api.ts:140-142 | one place per item, in order, each converted with its own index |
| `BlogApi.FallbackIdsDistinct` | lib/api.ts:116 | items without ids get distinct `blog-n` ids |
| `SearchResults.SortedResults` | components/SearchResults.tsx:43-53 | without a selection the list is unchanged; otherwise it is a permutation with the selected-id entries first, each group in its original order |
| `SearchResults.StableOrderUnique` | components/SearchResults.tsx:47-52 | any rank-ordered list that keeps both groups in their original order is the sorted result |
| `SearchResults.RankSortedIsItsGroups` | components/SearchResults.tsx:47-52 | a list ordered by the comparator's rank is its selected entries followed by the others |
| `SearchResults.FiltersOfSplit` | components/SearchResults.tsx:47-52 | when the selected entries are exactly the first k, the two groups are the prefix and suffix at k |
| `Card.ConvertToHttps` | components/Card.tsx:110-115 | a leading `http://` becomes `https://` with the rest unchanged; any other URL is unchanged |
| `Card.ConvertToHttpsIdempotent` | components/Card.tsx:110-115 | a converted URL never starts with `http://`, and converting again changes nothing |
| `Card.BlogThumbIsPstatic` | components/Card.tsx:102 | the `blogthumb.pstatic.net` test is implied by the `pstatic.net` test |
| `Card.GetProxyImageUrl` | components/Card.tsx:100-107 | a URL containing `pstatic.net` becomes the proxy path with the encoded URL; others are unchanged |
| `Card.SafeImageUrl` | components/Card.tsx:118-120 | a missing or blank image gives the placeholder; otherwise https conversion, then proxying |
| `Card.SafeImageUrlNeverPlainHttp` | components/Card.tsx:109-120 | the displayed image URL never starts with `http://` |
| `Card.HandleCardClick` | components/Card.tsx:35-41 | a click flips the selection and calls `onSelect` only on the unselected-to-selected transition |
| `Card.TwoClicks` | components/Card.tsx:35-41 | two clicks restore the selection and notify exactly once when there is a handler |
| `BlogMetadata.DirectorySegments` | app/api/blog-metadata/route.ts:17-18 | the directory segments are non-empty and contain no `/` |
| `BlogMetadata.DirectoryOfFile` | app/api/blog-metadata/route.ts:17-18 | the directory of `/d1/…/dn/file` is `d1 … dn` |
| `BlogMetadata.ConvertToAbsoluteUrl` | app/api/blog-metadata/route.ts:6-24 | an absolute URL or an unparseable base returns the reference unchanged; a `/`-prefixed reference becomes protocol + `//` + host + reference |
| `BlogMetadata.ResolvesInDirectory` | app/api/blog-metadata/route.ts:15-19 | any other reference is resolved in the directory of the base path |
| `BlogMetadata.TopLevelDoubleSlash` | app/api/blog-metadata/route.ts:17-19 | against a top-level document, a double slash appears before the reference |
| `BlogMetadata.NaverIframeUrl` | app/api/blog-metadata/route.ts:27-53 | a frame address is found exactly when the page was fetched and has a non-empty frame source, and is `https://blog.naver.com` followed by that source |
| `BlogMetadata.NaverOgImage` | app/api/blog-metadata/route.ts:56-94 | an image is found exactly for a Naver blog address whose frame is found and fetched with an og:image, and is that og:image resolved against the frame address |
| `BlogMetadata.RegularOgImage` | app/api/blog-metadata/route.ts:97-124 | an image is found iff the page was fetched and has an og:image, which is resolved against the page |
| `BlogMetadata.Get` | app/api/blog-metadata/route.ts:126-181 | a missing url gives 400 and a failed fetch 500; otherwise the title falls back from og:title to the title text, the description from og:description to the meta description to "", the site name to "", and `image` comes from the Naver frame path iff the url contains `blog.naver.com`, else from the page, or "" |
| `BlogMetadata.AbsoluteImageKept` | app/api/blog-metadata/route.ts:113-117 | an absolute og:image of an ordinary page is reported as it is |
| `BlogMetadata.NaverImageFromFrame` | app/api/blog-metadata/route.ts:150-166 | for a Naver blog post an absolute og:image of the frame page is reported as the image |
| `ImageProxy.ContentTypeOf` | app/api/image-proxy/route.ts:29-37 | the type is that of the first of png, gif, webp named by suffix or `type=` (each with none before it named), and `image/jpeg` iff none is named |
| `ImageProxy.ChooseContentType` | app/api/image-proxy/route.ts:29-37 | the overwriting if/else-if chain yields exactly that type |
| `ImageProxy.Get` | app/api/image-proxy/route.ts:4-50 | a missing url gives 400 with no fetch; a failed fetch gives 500; otherwise the bytes with the chosen type and `public, max-age=86400` |
| `ImageProxy.PngWins` | app/api/image-proxy/route.ts:31-32 | an address naming png is served as png whatever else it names |
| `SearchApi.Search` | app/api/search/route.ts:31-46 | a missing or empty query gives nothing; otherwise exactly the dummy places whose title or description contains the query, case-sensitively, in original order |
| `SignupModal.SubmitRefusal` | components/SignupModal.tsx:47-60 | the form is accepted iff all fields are filled, the passwords match and the id is known to be available; an empty field is reported first |
| `SignupModal.SignupForm.constructor` | components/SignupModal.tsx:14-21 | the form starts empty with availability unknown |
| `SignupModal.SignupForm.EditUserId` | components/SignupModal.tsx:95-98 | editing the id resets availability to unknown and changes nothing else |
| `SignupModal.SignupForm.EditDetails` | components/SignupModal.tsx:121-154 | editing the other fields keeps the id and its availability |
| `SignupModal.SignupForm.CheckUserId` | components/SignupModal.tsx:25-42 | a blank id sets the error and keeps availability; an answer sets availability to "not taken" with the error set iff taken; a failed check only sets the error |
| `SignupModal.SignupForm.HandleSubmit` | components/SignupModal.tsx:44-79 | the first failing check sets its message and nothing is sent; otherwise sign-up is sent, and a failure sets the returned message or the default |

## Left out

- Rendering, theming, scrolling, body-scroll locking, drag-and-drop
  gestures, alerts, confirmations and redirects: they are UI effects with no
  state the core reads.
- `localStorage` and the network (blog search, local search, metadata
  fetches, the save request, user sign-up, the id check): their results are
  parameters, and their writes are not modelled.
- Calls that fetch the same address twice in the metadata endpoint are
  assumed to get the same answer, because the fetch is a function of the
  address.
- The percent-encoding of `encodeURIComponent`, `toLowerCase`, `new URL`
  parsing and uuid generation are parameters without interpretation.
- `convertCoordinate` in lib/utils.ts divides a float by 10^7. It is left
  out because floating point is not modelled; the coordinates stay the
  strings the links interpolate.
- Mobile detection from the user agent is the boolean parameter `isMobile`.
- `RouteCreate.LaunchNavigation`: the page sends only id, title, type,
  coordinates and addresses of each point. The model sends the whole point.
  The endpoint reads only title, type and coordinates, so the links are the
  same.
- `SearchResults.SortedResults`: when several entries have the selected id,
  the source's comparator is inconsistent (it puts each before the other).
  The model places them first in their original order.
- `NavigationComponent.HandleCustomPlaceAdd`: a fresh uuid makes the id new
  in practice. The model states both cases, since the uuid is a parameter.
- `RouteSequence.InitialRoute`: the effect sets the route only when there
  are initial places. The model gives the roles for any list, and the empty
  list yields the empty route.
- The navigation page's `handleSearch`, which prepends the previously
  selected place to fresh results, is not part of this model. Only the
  `loadMore` paging it feeds is modelled.
- Async ordering, timers and React state batching: each handler is one
  sequential step.
