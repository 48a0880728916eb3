# canteen-admin-ui: a verified model of the admin pages' list, string and form rules

The canteen admin UI is a React application in which staff see the order queue,
manage the menu, read student feedback and manage advertisements. Almost all of it
fetches data and renders it. This project models, in Dafny, the parts that follow
exact rules:

- **Order queue** (`OrdersPage`). It models:
  - the status filter and the case-insensitive bill-number search;
  - the status badge and the action button each order offers;
  - the item count;
  - the page's `orders` state. A fetch replaces that state wholesale, and the "mark ready" and "mark delivered" buttons rewrite one status optimistically.
- **Menu dashboard** (`AdminDashboardPage`). This is the `groupedAndFilteredItems` projection:
  - a flat search mode;
  - otherwise the items partitioned by category, and Snacks again by subcategory;
  - categories in a fixed priority order, then in first-seen order;
  - every list sorted by name.

  The imperative `forEach` / `push` code and the loops over the collected keys are methods with loops. Each list is sorted with `Sorting.SortBy`, the stable sort that the in-place array method `Sorting.SortInPlace` is proved to compute. The methods are proved equal to reference functions, and the reference functions are proved to be a partition, sorted and correctly ordered.
- **Feedback inbox** (`AdminFeedbackPage`). It models:
  - the unread filter and the newest-first sort of a fetched list;
  - removal by id, "mark all as read", and opening an entry;
  - the unread count.
- **Menu item forms** (`AdminMenuFormPage`, `AdminMenuItemForm`, `SubCategoryModals`). They model:
  - field updates that clear dependent fields;
  - the checks made before submitting;
  - the multipart or JSON request built on submit;
  - the subcategory list, sorted in place by name, and the add, edit and delete actions on it;
  - the checks in the add-subcategory and edit-subcategory dialogs.
- **Image URLs** (`ImageUrl`, `AdminMenuItemCard`, `AdminAdvertisementPage`). They model:
  - the four copies of `getFullImageUrl`; the form page's copy differs from the others;
  - the derivation of `API_ROOT_URL`;
  - the stock colour and availability badge of a menu card.

Shared modules:
- `Optional`: an `Option` type.
- `Seqs`: `filter`, first-seen de-duplication and subsequences.
- `Text`: JavaScript string operations.
  - `includes`, `startsWith`, ASCII `toLowerCase`, `trim` and a first-occurrence `replace`;
  - number-to-text conversion;
  - a lexicographic order used in place of `localeCompare`.
- `Sorting`: a stable sort by a string key. There is a reference function and an in-place array method proved equal to it.
- `Menu`: menu items and form fields.
- `Http`: request shapes and multipart bodies.

Network responses, the login token, confirmations and created ids are parameters of the methods. A JavaScript object or `Map` is modelled as its key sequence, in insertion order, together with a Dafny `map`. The three `VITE_API_URL` fallbacks are the constants of each source file. The dashboard's `root` parameter stands for `API_ROOT_URL`.

## Model

| member | source | states |
|---|---|---|
| `OrdersPage.NormalizedStatus` | src/pages/OrdersPage.jsx:225-226 | "Paid", "Ready" and "Delivered" are kept; every other status becomes "Other" |
| `OrdersPage.FilteredOrders` | src/pages/OrdersPage.jsx:223-233 | an order is shown iff it is in the list, passes the status filter and its lower-cased bill number includes the lower-cased term |
| `OrdersPage.FilteredOrdersIsSubsequence` | src/pages/OrdersPage.jsx:223-233 | the shown orders are an order-preserving subsequence of `orders` |
| `OrdersPage.FilterAllKeepsEveryStatus` | src/pages/OrdersPage.jsx:227 | filter "All" keeps every order whatever its status, so only the search applies; with an empty search it is the whole list |
| `OrdersPage.StatusFilterIsExact` | src/pages/OrdersPage.jsx:226-231 | a known-status filter keeps exactly the matching orders with that status; an unknown status passes only "All"; an unknown filter value passes nothing |
| `OrdersPage.SearchSemantics` | src/pages/OrdersPage.jsx:233 | the empty search keeps every order; a non-empty search never matches a missing bill number; matching ignores ASCII case on both sides |
| `OrdersPage.StatusBadgeDistinguishesStatuses` | src/pages/OrdersPage.jsx:235-242 | the three known statuses get three distinct badges; every other status gets the default badge |
| `OrdersPage.StatusBadge` | src/pages/OrdersPage.jsx:235-242 | the default badge is given exactly to a status other than the three known ones |
| `OrdersPage.ItemCount` | src/pages/OrdersPage.jsx:351 | the sum of quantities is non-negative for non-negative quantities and at least the number of items when each is at least 1 |
| `OrdersPage.ItemCountAppend` | src/pages/OrdersPage.jsx:351 | the quantity sum of a concatenation is the sum of the parts' sums |
| `OrdersPage.SetStatusWhere` | src/pages/OrdersPage.jsx:171-173 | the optimistic `map`: same length; every order with the id gets the new status; every other order is unchanged |
| `OrdersPage.SetStatusNoOp` | src/pages/OrdersPage.jsx:200-202 | an unknown id, or orders already in the status, leave the list unchanged |
| `OrdersPage.SetStatusIdempotent` | src/pages/OrdersPage.jsx:171-173 | rewriting the same status twice is the same as once |
| `OrdersPage.OfferedAction` | src/pages/OrdersPage.jsx:357-363 | a row offers a button exactly when its order is Paid or Ready, and the button's target status is the next one on the lifecycle |
| `OrdersPage.PressingOfferedButtonAdvancesOneStep` | src/pages/OrdersPage.jsx:357-365 | with unique ids, pressing the button a row offers moves that order exactly one step along Paid, Ready, Delivered, changes nothing else about it, and leaves every other order as it was |
| `OrdersPage.OrderQueue.constructor` | src/pages/OrdersPage.jsx:94-98 | the initial state: no orders, loading, no error, filter "All", empty search |
| `OrdersPage.OrderQueue.Visible` | src/pages/OrdersPage.jsx:223-233 | the rows shown are a subsequence of the page's orders |
| `OrdersPage.OrderQueue.SetFilter` | src/pages/OrdersPage.jsx:321-324 | the filter buttons set the filter |
| `OrdersPage.OrderQueue.SetSearchTerm` | src/pages/OrdersPage.jsx:314 | the search input sets the term |
| `OrdersPage.OrderQueue.FetchOrders` | src/pages/OrdersPage.jsx:125-145 | a response replaces the orders wholesale; a 401 or other failure keeps them and sets the matching error; no token changes nothing; loading ends on every path |
| `OrdersPage.OrderQueue.MarkAsReady` | src/pages/OrdersPage.jsx:170-173 | exactly the orders with the id become "Ready"; nothing else changes |
| `OrdersPage.OrderQueue.MarkAsDelivered` | src/pages/OrdersPage.jsx:199-202 | exactly the orders with the id become "Delivered"; nothing else changes |
| `AdminDashboardPage.CategoryOf` | src/pages/AdminDashboardPage.jsx:305 | the category of an item, "Uncategorized" when missing, is never empty |
| `AdminDashboardPage.SubKeyOf` | src/pages/AdminDashboardPage.jsx:310 | the subgroup key, "other" when there is no subcategory id, is never empty |
| `AdminDashboardPage.CollectGroups` | src/pages/AdminDashboardPage.jsx:304-326 | the `forEach` loop leaves the category keys in first-seen order, each list holding its category's items in order, the Snacks subgroups alike, and the details map of the reference definition |
| `AdminDashboardPage.VisitCategory` | src/pages/AdminDashboardPage.jsx:305-324 | one loop step keeps the category part of `groups` equal to the reference for the items visited so far |
| `AdminDashboardPage.CreateGroup` | src/pages/AdminDashboardPage.jsx:306 | a category's group is created empty on its first item, and its key is appended |
| `AdminDashboardPage.PushItem` | src/pages/AdminDashboardPage.jsx:324 | pushing an item outside Snacks extends exactly its category's list |
| `AdminDashboardPage.VisitSnack` | src/pages/AdminDashboardPage.jsx:308-322 | one Snacks step keeps the subgroup keys, lists and details equal to the reference for the items visited so far |
| `AdminDashboardPage.OrderCategories` | src/pages/AdminDashboardPage.jsx:328-330 | the two key loops produce the priority order: present priority categories, then the other keys |
| `AdminDashboardPage.ArrangeGroups` | src/pages/AdminDashboardPage.jsx:328-345 | the groups built in that key order equal the reference grouping |
| `AdminDashboardPage.ArrangeGroup` | src/pages/AdminDashboardPage.jsx:341-345 | each non-Snacks list becomes its collected list sorted by item name with the stable sort that `Sorting.SortInPlace` is proved to compute, equal to the reference group |
| `AdminDashboardPage.ArrangeSnacks` | src/pages/AdminDashboardPage.jsx:332-340 | the Snacks subgroups are ordered by display name, each sorted by item name, equal to the reference |
| `AdminDashboardPage.GroupedAndFilteredItems` | src/pages/AdminDashboardPage.jsx:292-348 | the whole computation equals the reference view for the fixed category order |
| `AdminDashboardPage.CategoryOrderHasNoDuplicates` | src/pages/AdminDashboardPage.jsx:302 | the priority list names each category once |
| `AdminDashboardPage.PriorityOrderMembers` | src/pages/AdminDashboardPage.jsx:328-330 | the ordered keys are exactly the category keys |
| `AdminDashboardPage.PriorityOrderSpec` | src/pages/AdminDashboardPage.jsx:328-330 | each key appears once; priority categories come first by rank; the others follow in their original order |
| `AdminDashboardPage.SearchModeIsFlat` | src/pages/AdminDashboardPage.jsx:293-297 | with a non-blank term the view is only the search results: the items whose lower-cased name includes the lower-cased untrimmed term, in original order |
| `AdminDashboardPage.NoSearchIsGrouped` | src/pages/AdminDashboardPage.jsx:293-297 | a term of only whitespace counts as no search and the grouped view is shown |
| `AdminDashboardPage.GroupCategories` | src/pages/AdminDashboardPage.jsx:329-330 | the group at each position reports the category of that key |
| `AdminDashboardPage.OneGroupPerCategory` | src/pages/AdminDashboardPage.jsx:304-330 | no two groups share a category; every item's category has a group; only Snacks has subgroups |
| `AdminDashboardPage.ItemGroupsPartition` | src/pages/AdminDashboardPage.jsx:304-325 | each non-Snacks list holds every occurrence of every item of its category and nothing else |
| `AdminDashboardPage.SnackSubgroupsPartition` | src/pages/AdminDashboardPage.jsx:308-322 | each Snacks subgroup holds every occurrence of every Snacks item with its key and nothing else |
| `AdminDashboardPage.SnackSubgroupKeysDistinct` | src/pages/AdminDashboardPage.jsx:321-338 | no two Snacks subgroups share a key |
| `AdminDashboardPage.SnackSubgroupForEveryKey` | src/pages/AdminDashboardPage.jsx:310-322 | every Snacks item has a subgroup for its key |
| `AdminDashboardPage.SortedKeysDistinct` | src/pages/AdminDashboardPage.jsx:334-335 | sorting the distinct subgroup keys keeps them distinct |
| `AdminDashboardPage.CategoriesInPriorityThenFirstSeenOrder` | src/pages/AdminDashboardPage.jsx:302-330 | groups appear by priority rank; categories outside the list come last, in the order of their first item |
| `AdminDashboardPage.GroupsAreSorted` | src/pages/AdminDashboardPage.jsx:334-345 | every list and subgroup is sorted by item name; the subgroups are sorted by their details' display name |
| `AdminDashboardPage.DetailsFromFirstItem` | src/pages/AdminDashboardPage.jsx:313-319 | the details map has exactly one entry per Snacks subgroup key, taken from the subgroup's first item |
| `AdminDashboardPage.OtherDetailIsPlaceholder` | src/pages/AdminDashboardPage.jsx:317-318 | when no "other" item carries a subcategory object, the "other" entry is "Other Snacks" with a null image |
| `AdminFeedbackPage.InsertNewestFirst` | src/pages/AdminFeedbackPage.jsx:166 | inserting into a newest-first list keeps it newest first and adds exactly the entry |
| `AdminFeedbackPage.SortNewestFirst` | src/pages/AdminFeedbackPage.jsx:166 | the date sort yields a newest-first permutation of the list |
| `AdminFeedbackPage.Inbox` | src/pages/AdminFeedbackPage.jsx:163-166 | the inbox built from a response is newest first and no longer than the response |
| `AdminFeedbackPage.InboxSpec` | src/pages/AdminFeedbackPage.jsx:163-166 | the inbox holds exactly the unread fetched entries, each as often as fetched, newest first |
| `AdminFeedbackPage.FilterKeepsNewestFirst` | src/pages/AdminFeedbackPage.jsx:188-190 | removing entries keeps the list newest first |
| `AdminFeedbackPage.RemoveById` | src/pages/AdminFeedbackPage.jsx:188-190 | the filtered list is no longer than before and holds no entry with the id |
| `AdminFeedbackPage.RemoveByIdSpec` | src/pages/AdminFeedbackPage.jsx:188-190 | removal drops every entry with the id and keeps the others, as often as before and in order |
| `AdminFeedbackPage.FeedbackInbox.constructor` | src/pages/AdminFeedbackPage.jsx:110-113 | empty list, nothing selected, loading, no error |
| `AdminFeedbackPage.FeedbackInbox.UnreadCount` | src/pages/AdminFeedbackPage.jsx:253 | the count is zero exactly when the list is empty |
| `AdminFeedbackPage.FeedbackInbox.ShowsMarkAllButton` | src/pages/AdminFeedbackPage.jsx:368 | the "Mark All as Read" button is shown exactly when the list is non-empty |
| `AdminFeedbackPage.FeedbackInbox.FetchFeedbacks` | src/pages/AdminFeedbackPage.jsx:150-179 | the error is cleared first; a response becomes the inbox; a failure keeps the list and sets the error; no token changes nothing; the list stays unread and newest first |
| `AdminFeedbackPage.FeedbackInbox.MarkAsRead` | src/pages/AdminFeedbackPage.jsx:182-190 | with a token the entry is removed before the request; without one the list is untouched |
| `AdminFeedbackPage.FeedbackInbox.MarkAllAsRead` | src/pages/AdminFeedbackPage.jsx:205-212 | once confirmed, with a token, the list is emptied; otherwise it is untouched |
| `AdminFeedbackPage.FeedbackInbox.ViewDetails` | src/pages/AdminFeedbackPage.jsx:231-236 | the entry is removed from the list and becomes the selected feedback |
| `AdminFeedbackPage.FeedbackInbox.CloseDetails` | src/pages/AdminFeedbackPage.jsx:388 | closing the modal clears the selection |
| `ImageUrl.ApiRootUrlCases` | src/pages/AdminAdvertisementPage.jsx:19 | `API_ROOT_URL` as written: the fallback when unset, the value unchanged without "/api", otherwise the value with its first "/api" cut out |
| `ImageUrl.ApiRootUrlUnchangedIff` | src/pages/AdminAdvertisementPage.jsx:19 | as written, a set value is the root unchanged exactly when it contains no "/api"; otherwise the root is four characters shorter |
| `ImageUrl.ApiRootUrlManglesApiHost` | src/pages/AdminDashboardPage.jsx:20 | for a host named "api" the "/api" removed is the one after "http:/", and the trailing "/api" stays |
| `ImageUrl.ApiRootUrlStrippedRoundTrip` | src/components/AdminMenuItemCard.jsx:12 | the corrected root of the Findings row recovers the host of every host + "/api" and host + "/api/"; where "/api" occurs only at the end, the code's `replace` gives the same host |
| `ImageUrl.FullImageUrl` | src/pages/AdminDashboardPage.jsx:49-64 | the result is "" iff the path is absent; a path not starting with "http" is put under the root |
| `ImageUrl.FullImageUrlSlash` | src/pages/AdminMenuFormPage.jsx:33-45 | the same, for the copy that treats every `/`-prefixed path as host-relative |
| `ImageUrl.FullImageUrlShape` | src/pages/AdminAdvertisementPage.jsx:36-51 | every result ends with the path; with a non-empty root it is the path itself iff the path is absent or starts with "http"; a relative path becomes root + path iff it starts with "/uploads/" |
| `ImageUrl.FullImageUrlIdempotent` | src/components/AdminMenuItemCard.jsx:19-34 | with an absolute root, resolving a resolved URL changes nothing, in both copies |
| `ImageUrl.VariantsDifferOnlyOnOtherSlashPaths` | src/pages/AdminMenuFormPage.jsx:41-43 | the two copies disagree exactly on paths starting with "/" but not with "/uploads/" |
| `AdminMenuItemCard.ImageSrcSpec` | src/components/AdminMenuItemCard.jsx:39-50 | the placeholder is shown exactly for an absent image; any other path is shown resolved |
| `AdminMenuItemCard.StockSignals` | src/components/AdminMenuItemCard.jsx:42-66 | red iff stock is at most 10; "Available" iff stock is above 0, so stock 1 to 10 is red yet available; the badge style matches its text |
| `AdminMenuItemCard.ApiRoot` | src/components/AdminMenuItemCard.jsx:12 | `API_ROOT_URL` as written: the card's fallback when unset; a set value is used unchanged exactly when it contains no "/api", otherwise its first "/api" is cut out |
| `AdminMenuItemCard.CardFor` | src/components/AdminMenuItemCard.jsx:39-66 | the card always shows some image, and its badge has the available style exactly when it reads "Available" |
| `AdminAdvertisementPage.ApiBase` | src/pages/AdminAdvertisementPage.jsx:18 | `API_BASE_URL` is never empty, and a set variable is used as it is |
| `AdminAdvertisementPage.ApiRoot` | src/pages/AdminAdvertisementPage.jsx:19 | `API_ROOT_URL` as written: the page's fallback when unset; a set value is used unchanged exactly when it contains no "/api", otherwise its first "/api" is cut out |
| `AdminAdvertisementPage.AdImageUrl` | src/pages/AdminAdvertisementPage.jsx:36-51 | the page's image URL is "" exactly for an absent path, an absolute path as it is, and it always ends with the stored path |
| `AdminAdvertisementPage.BaseIsRootWithApi` | src/pages/AdminAdvertisementPage.jsx:18-19 | with the code's `replace`, the base URL is the root + "/api" when unset, and for host + "/api" when "/api" occurs nowhere before the suffix; the root is then the host |
| `AdminAdvertisementPage.LocalImageUrls` | src/pages/AdminAdvertisementPage.jsx:36-51 | when unset, a bare file name and its "/uploads/" form resolve to the same local uploads URL |
| `AdminMenuFormPage.ApiBase` | src/pages/AdminMenuFormPage.jsx:19 | `API_BASE_URL` is never empty, and a set variable is used as it is |
| `AdminMenuFormPage.ApiRoot` | src/pages/AdminMenuFormPage.jsx:20 | `API_ROOT_URL` as written: the page's fallback when unset; a set value is used unchanged exactly when it contains no "/api", otherwise its first "/api" is cut out |
| `AdminMenuFormPage.ItemImageUrl` | src/pages/AdminMenuFormPage.jsx:33-45 | the page's image URL is "" exactly for an absent path, an absolute path as it is, and any other `/`-prefixed path appended to the root |
| `AdminMenuFormPage.StoredUploadFormsAgree` | src/pages/AdminMenuFormPage.jsx:33-45 | a stored upload resolves the same as a bare name or as "/uploads/" + name; other "/" paths are appended to the root |
| `AdminMenuFormPage.Changed` | src/pages/AdminMenuFormPage.jsx:402-408 | the field takes the value; a category other than Snacks clears the subcategory; nothing else changes |
| `AdminMenuFormPage.ChangedIdempotent` | src/pages/AdminMenuFormPage.jsx:402-408 | making the same change twice is the same as once |
| `AdminMenuFormPage.FormOfShowsItem` | src/pages/AdminMenuFormPage.jsx:369-376 | the loaded form shows the item's name and category, the decimal text of its price and stock, and its subcategory id or "" |
| `AdminMenuFormPage.SubmitCheck` | src/pages/AdminMenuFormPage.jsx:418-425 | submission goes ahead iff (editing or an image was chosen) and (not Snacks or a subcategory is set); the image alert fires iff it is a new item without an image |
| `AdminMenuFormPage.LeavingSnacksPassesSubcategoryCheck` | src/pages/AdminMenuFormPage.jsx:405-406 | after switching away from Snacks the subcategory check never fires |
| `AdminMenuFormPage.FindById` | src/pages/AdminMenuFormPage.jsx:495 | `find` returns a listed subcategory with the id, and nothing iff none has it |
| `AdminMenuFormPage.FindByIdFirst` | src/pages/AdminMenuFormPage.jsx:524 | `find` returns the first subcategory with the id |
| `AdminMenuFormPage.LoadError` | src/pages/AdminMenuFormPage.jsx:383-391 | no error exactly when neither the subcategory request nor, on the edit route, the item request failed; an item error overrides the subcategory error |
| `AdminMenuFormPage.AppendRequiredFields` | src/pages/AdminMenuFormPage.jsx:428-432 | the body holds name, price, category and stock, and nothing else |
| `AdminMenuFormPage.BuildItemBody` | src/pages/AdminMenuFormPage.jsx:428-438 | the body always holds the four fields; it holds the subcategory iff one is set and the image iff one was chosen |
| `AdminMenuFormPage.MenuFormPage.constructor` | src/pages/AdminMenuFormPage.jsx:276-293 | the initial form ("Snacks", stock "0") and empty page state |
| `AdminMenuFormPage.MenuFormPage.FetchSubCategories` | src/pages/AdminMenuFormPage.jsx:330-346 | an array body is sorted by name in place: a sorted permutation, equal to the stable sort. Any other body empties the list, and a failed request also sets the error |
| `AdminMenuFormPage.MenuFormPage.LoadPage` | src/pages/AdminMenuFormPage.jsx:349-398 | without a token nothing loads; otherwise subcategories are loaded, and on the edit route the item fills the form or the matching error is set |
| `AdminMenuFormPage.MenuFormPage.HandleChange` | src/pages/AdminMenuFormPage.jsx:402-408 | the form becomes `Changed` of the old form |
| `AdminMenuFormPage.MenuFormPage.ChooseItemImage` | src/pages/AdminMenuFormPage.jsx:409-415 | a chosen file replaces the current one; cancelling keeps it |
| `AdminMenuFormPage.MenuFormPage.HandleSubmit` | src/pages/AdminMenuFormPage.jsx:416-457 | a failed check gives its alert; otherwise the item body is sent with PUT to the item when editing and with POST otherwise |
| `AdminMenuFormPage.MenuFormPage.SaveNewSubCategory` | src/pages/AdminMenuFormPage.jsx:469-493 | name and image are posted; once created, the list is refetched, the new id becomes the selection and the dialog closes; a failure changes nothing; the error is set only when the refetch that follows success fails, and is otherwise kept |
| `AdminMenuFormPage.MenuFormPage.OpenEditSubCategoryModal` | src/pages/AdminMenuFormPage.jsx:494-502 | a selected listed subcategory opens the edit dialog; otherwise an alert and no change |
| `AdminMenuFormPage.MenuFormPage.SaveEditedSubCategory` | src/pages/AdminMenuFormPage.jsx:503-521 | the new name is PUT for the id; on success the list is refetched and the dialog closes; the error is set only when the refetch that follows success fails, and is otherwise kept |
| `AdminMenuFormPage.MenuFormPage.DeleteSubCategory` | src/pages/AdminMenuFormPage.jsx:522-549 | without a selected listed subcategory an alert; once confirmed a DELETE for it; on success the list is refetched and the selection cleared; the error is set only when the refetch that follows success fails, and is otherwise kept |
| `SubCategoryModals.AddSubmit` | src/components/AdminMenuItemForm.jsx:37-43 | the dialog saves iff both a name and an image are given, passing them on; otherwise its alert |
| `SubCategoryModals.EditSubmit` | src/pages/AdminMenuFormPage.jsx:217-225 | a blank name gives the alert; otherwise the trimmed name is saved for the subcategory being edited, if any |
| `SubCategoryModals.EditSubmitSaves` | src/pages/AdminMenuFormPage.jsx:218-223 | it saves iff a subcategory is edited and the name has a non-whitespace character; the saved name is the non-empty slice of the input after its leading whitespace, with no whitespace at either end |
| `AdminMenuItemForm.ApiBase` | src/components/AdminMenuItemForm.jsx:12 | `API_BASE_URL` is never empty, and a set variable is used as it is |
| `AdminMenuItemForm.Changed` | src/components/AdminMenuItemForm.jsx:136-148 | the field takes the value; leaving Snacks clears the subcategory and the new-subcategory text and adds an empty `newSubCategory`; choosing other than the "new" entry clears the text; nothing else changes |
| `AdminMenuItemForm.SubmittedSubCategory` | src/components/AdminMenuItemForm.jsx:157-159 | the subcategory sent is the selection or the typed text, and the "new" entry's own value is sent only if it was typed |
| `AdminMenuItemForm.PickedSubCategoryIsSent` | src/components/AdminMenuItemForm.jsx:157-159 | an existing subcategory is sent as picked; the "new" entry sends the typed text; leaving Snacks sends "" |
| `AdminMenuItemForm.ChangedIdempotent` | src/components/AdminMenuItemForm.jsx:136-148 | making the same change twice is the same as once |
| `AdminMenuItemForm.FormOfShowsInitialData` | src/components/AdminMenuItemForm.jsx:123-134 | loading copies id, name, category, stock and subcategory; the price becomes its decimal text |
| `AdminMenuItemForm.MenuItemForm.constructor` | src/components/AdminMenuItemForm.jsx:109-121 | the initial form ("Snacks", stock "Available"), empty text, dialog closed |
| `AdminMenuItemForm.MenuItemForm.LoadInitialData` | src/components/AdminMenuItemForm.jsx:123-134 | given data replaces the whole form; none keeps it |
| `AdminMenuItemForm.MenuItemForm.HandleChange` | src/components/AdminMenuItemForm.jsx:136-148 | form and text become `Changed` of the old ones |
| `AdminMenuItemForm.MenuItemForm.SetNewSubCategoryText` | src/components/AdminMenuItemForm.jsx:121 | typing sets the new-subcategory text |
| `AdminMenuItemForm.MenuItemForm.HandleSubmit` | src/components/AdminMenuItemForm.jsx:150-176 | PUT to the item iff the id is truthy, else POST. The body's keys are the form's, without a falsy id; the price is parsed and the subcategory resolved |
| `AdminMenuItemForm.MenuItemForm.SaveNewSubCategory` | src/components/AdminMenuItemForm.jsx:187-212 | name and image are posted; once created the parent is told, the new name becomes the selection and the dialog closes |
| `Sorting.SortBySpec` | src/pages/AdminDashboardPage.jsx:337 | the stable sort by a key yields a sorted permutation |
| `Sorting.SortByStable` | src/pages/AdminMenuFormPage.jsx:336 | the sort is stable: the elements with any one key keep their input order |
| `Sorting.SortInPlace` | src/pages/AdminMenuFormPage.jsx:336 | the in-place `sort` leaves the array equal to the stable sort of its old contents |
| `Sorting.InsertInPlace` | src/pages/AdminMenuFormPage.jsx:336 | one insertion step puts the element into the sorted prefix and leaves the rest of the array alone |
| `Seqs.DedupFirstSeenOrder` | src/pages/AdminDashboardPage.jsx:306 | object keys come in the order of their first insertion |
| `Text.TrimSpec` | src/pages/AdminMenuFormPage.jsx:223 | `trim` returns the slice after the leading whitespace; everything cut is whitespace; the result has no whitespace at either end |
| `Text.TrimEmptyIff` | src/pages/AdminDashboardPage.jsx:293 | `trim` is empty exactly when every character is whitespace |
| `Text.IncludesIff` | src/pages/OrdersPage.jsx:233 | `includes` holds exactly when the term occurs at some position |
| `Text.ToLowerIdempotent` | src/pages/OrdersPage.jsx:233 | lower-casing twice is lower-casing once, and leaves no upper-case ASCII letter |
| `Text.ReplaceFirstPresent` | src/pages/AdminAdvertisementPage.jsx:19 | `replace` with a string pattern cuts out only its first occurrence |
| `Text.IntToStringValue` | src/components/AdminMenuItemForm.jsx:128 | `toString` of an integer has a sign iff it is negative, and its digits denote its magnitude |

## Left out

- HTTP calls are not executed. Each response is a parameter: the fetched list, a 401 or other failure, a created id, a refetched list. The request a handler sends is returned as a value. Headers, the `localStorage` token and navigation to `/login` or `/menu` are not modelled; a missing token is a boolean.
- A menu item without a name makes the dashboard throw: `item.name.toLowerCase()` in search mode, `localeCompare` in grouped mode. The model reads the missing name as "", so the item drops out of every non-empty search and sorts first in its group.
- The canteen-status toggle, service hours, logout, the route guard, the side drawers and other layout state are left out. They are network I/O or presentation.
- Polling with `setInterval` is left out, and so is the race between an optimistic update and the refetch that follows it. Each handler is modelled up to its request; the refetch that follows success is a separate call of the fetch method.
- `alert` and `window.confirm` are left out as dialogs. An alert is a returned message, and a confirmation is a boolean parameter. Texts that embed the server's error message are not modelled.
- Prices, stock and `createdAt` are integers. `parseFloat`, `toFixed`, `Date` parsing and non-integer prices are not modelled. A parsed price is kept as the text it came from.
- `localeCompare` is modelled as lexicographic order on character codes. Locale collation is not modelled.
- `toLowerCase` maps only ASCII letters.
- JavaScript orders integer-like object keys numerically before the other keys. The model keeps plain insertion order.
- The category priority list is a parameter of the reference functions. The methods use the page's fixed list.
- Image previews (`URL.createObjectURL`), the drag-and-drop file inputs and the `isSubmitting` spinners are not modelled. The dialogs' open and cancel toggles are not modelled either.
- The `id` key that the menu form page copies into `formData` on load is not modelled, because that page never reads it.
- `AdminMenuFormPage.FormOfShowsItem`: a subcategory object without `_id`, or a bare id string, gives `undefined` in the source and "" in the model; both are falsy in every later check, so only the value itself differs.
- RevenuePage, AdminLoginPage, AdminLayout, ItemDetailsModal and FeedbackDetailModal are not part of this model. They only render or authenticate.
- The rest of AdminAdvertisementPage is network I/O and is not part of this model. Only its URL derivation and `getFullImageUrl` are modelled.
- `AdminDashboardPage.OtherDetailIsPlaceholder`: this holds only when no "other" Snacks item carries a subcategory object. An item whose subcategory object has no `_id` would give the "other" entry that object's name and image.

## Findings

| source | as written | input that shows it | evidently intended | confidence | as-written member | corrected member |
|---|---|---|---|---|---|---|
| src/pages/AdminAdvertisementPage.jsx:19 (also src/pages/AdminDashboardPage.jsx:20, src/pages/AdminMenuFormPage.jsx:20, src/components/AdminMenuItemCard.jsx:12) | `API_ROOT_URL` is `VITE_API_URL.replace("/api", "")`, which removes the FIRST "/api" anywhere in the URL | `VITE_API_URL` = "http://api:5000/api" gives "http:/:5000/api"; "https://api.example.com/api" likewise loses the "/" before the host; "https://x.co/api/v1" gives "https://x.co/v1" | the URL without the "/api" it ends with ("http://api:5000"), the server root that "/uploads/..." paths are served from. A base written with a trailing slash, "https://x.co/api/", must lose "/api/" as well: the code gives "https://x.co/" there, and stripping only "/api" would keep "/api/" and resolve images to "https://x.co/api//uploads/..." | not executed | `ImageUrl.ApiRootUrlManglesApiHost` | `ImageUrl.ApiRootUrlStrippedRoundTrip` |

The corrected derivation is `ImageUrl.ApiRootUrlStripped`. The pages' `ApiRoot` functions (`AdminAdvertisementPage.ApiRoot`, `AdminMenuItemCard.ApiRoot`, `AdminMenuFormPage.ApiRoot`) keep the code as written, `ImageUrl.ApiRootUrl`, so every image URL in the model is the one the pages compute. `ImageUrl.ApiRootUrlStrippedRoundTrip` shows that the two derivations agree whenever "/api" occurs only at the end.
