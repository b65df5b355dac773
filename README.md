# Galeria Pickleball — a verified model of the storefront's business rules

Galeria Pickleball is a photo storefront for pickleball events. Visitors
browse events, open photos in a lightbox and put photos in a cart. The cart
prices photos in tiers: 12 each, 7 each from three photos, and 5 each from
six. Checkout is a WhatsApp message that lists the chosen photos and the
price summary. An administrator creates events and stages photos for upload
to a Firebase store.

This project models the client-side rules behind those screens and proves
properties about them:

- **CartContext**: the cart, its tier pricing, and adding, removing and
  toggling. `context/CartContext.tsx` becomes the class `CartContext.Cart`
  plus pure pricing functions.
- **CartDrawer**: the drawer built from the cart. This covers each photo's
  reference name, the checkout message and its WhatsApp link, the upsell
  banner, the tier bar and the item rows (`components/CartDrawer.tsx`).
- **EventView**: the lightbox state machine (`pages/EventView.tsx`). It
  covers open, next and previous with wrap-around, the keyboard shortcuts,
  the counter and the download file name.
- **Home**: the event list filters, the category pills and "clear
  filters" (`pages/Home.tsx`).
- **Admin**: the new-event form and its defaults, and the upload staging
  list with its modal and target event. `AdminPage` holds this state
  (`pages/Admin.tsx`).
- **DataService**: the service's own logic (`services/dataService.ts`):
  - the record `createEvent` stores;
  - the undefined-field filter of `updateEvent`;
  - the photo record and photo count of `uploadPhotos`;
  - the photo-less list view;
  - the admin flag in the browser's key-value storage.

Shared modules:

- `Types` holds the records of `types.ts`.
- `Text` holds the string functions: `includes`, JavaScript `trim`, split
  and join, the tag parser, and integer rendering for `toFixed(2)`.
- `Seqs` holds `filter`, `map` and the `Set`-based de-duplication.
- `Wrappers` holds `Option`, which stands for `undefined` and `null`.

Where the program reads the clock, calls `encodeURIComponent` or
`URL.createObjectURL`, or waits for the store, the model takes the value as
a parameter:

- `now`: the clock;
- `encode`: `encodeURIComponent`;
- `objectUrl`: `URL.createObjectURL`;
- `succeeded`: whether the store call succeeded.

The tiers are flat unit prices (`context/CartContext.tsx`): 12 each, 7
each from three photos and 5 each from six.

- Three photos save 15.00 (36 − 21).
- The total is not monotone in the number of photos. Two photos cost 24 and
  three cost 21; five cost 35 and six cost 30. `CartContext.TotalDropsAtTiers`
  states these figures.

## Model

| member | source | states |
|---|---|---|
| CartContext.UnitPrice | context/CartContext.tsx:55-63 | the unit price is one of 12, 7, 5 and never above the base price 12 |
| CartContext.PricingOf | context/CartContext.tsx:54-68 | subtotal is count × 12, total is count × unit price, discount + total = subtotal, total never exceeds subtotal, and there is a discount exactly from 3 photos |
| CartContext.DiscountPercent | context/CartContext.tsx:69 | the discount ratio is 0 below 3 photos, 5/12 for 3 to 5, 7/12 from 6 (also 0 for an empty cart) |
| CartContext.UnitPriceNonIncreasing | context/CartContext.tsx:57-63 | more photos never raise the unit price |
| CartContext.TotalDropsAtTiers | context/CartContext.tsx:59-68 | totals 24 → 21 at the 3-photo tier and 35 → 30 at the 6-photo tier; discounts 15 at 3 photos and 42 at 6 |
| CartContext.WithPhoto | context/CartContext.tsx:29-33 | the list after `addItem` starts with the old list and grows by at most one photo |
| CartContext.WithoutId | context/CartContext.tsx:38-40 | the list after `removeItem` keeps the old order and holds exactly the old items whose id differs |
| CartContext.HasId | context/CartContext.tsx:43 | `some(p => p.id === id)` holds iff some item has the id |
| CartContext.AddItemSpec | context/CartContext.tsx:29-33 | after adding, the photo's id is in the cart; an id already present leaves the list unchanged, otherwise the photo is appended at the end; ids present afterwards are the old ones plus the photo's |
| CartContext.AddItemIdempotent | context/CartContext.tsx:31 | adding the same photo twice is adding it once |
| CartContext.AddItemKeepsUnique | context/CartContext.tsx:29-33 | adding keeps the cart free of repeated ids |
| CartContext.RemoveItemSpec | context/CartContext.tsx:38-40 | after removal no item has the id, exactly the other items remain in their order, and removing an absent id changes nothing |
| CartContext.RemoveItemKeepsUnique | context/CartContext.tsx:39 | removal keeps ids unique |
| CartContext.AddThenRemove | context/CartContext.tsx:29-40 | adding a new photo and removing its id restores the list |
| CartContext.Cart.constructor | context/CartContext.tsx:26-27 | the cart starts empty and closed |
| CartContext.Cart.AddItem | context/CartContext.tsx:29-36 | the items become the add-if-absent list; the open flag is untouched; ids stay unique |
| CartContext.Cart.RemoveItem | context/CartContext.tsx:38-40 | the items become the list without that id; ids stay unique |
| CartContext.Cart.IsInCart | context/CartContext.tsx:42-44 | true iff some item in the cart has the id |
| CartContext.Cart.ClearCart | context/CartContext.tsx:46 | the cart becomes empty and its open flag is untouched |
| CartContext.Cart.OpenCart | context/CartContext.tsx:49 | the drawer opens; items untouched |
| CartContext.Cart.CloseCart | context/CartContext.tsx:50 | the drawer closes; items untouched |
| CartContext.Cart.ToggleCart | context/CartContext.tsx:51 | the open flag flips; items untouched |
| CartContext.Cart.Figures | context/CartContext.tsx:54-69 | the figures are the pricing of the cart's item count: they count the items, and discount + total = subtotal |
| CartContext.AddThenRemoveRestores | context/CartContext.tsx:29-40 | adding a photo not in the cart and removing it restores the cart's state |
| CartContext.ToggleTwiceRestores | context/CartContext.tsx:51 | toggling twice restores the open flag |
| CartDrawer.IdPrefix | components/CartDrawer.tsx:26 | `substring(0, 5)` is a prefix of the id of length min(5, length) |
| CartDrawer.ReferenceName | components/CartDrawer.tsx:26 | a non-empty original name wins; else a non-empty display id; else the id's first five characters in upper case; so the name is empty iff all three are empty |
| CartDrawer.ExtensionRun | components/CartDrawer.tsx:27 | the run of `[^/.]` characters at the end of a name is maximal |
| CartDrawer.StripExtension | components/CartDrawer.tsx:27 | the cleaned name is a prefix of the name; it is the whole name or cut at a final `.ext`, and it is cut whenever such an extension exists |
| CartDrawer.StripExtensionOf | components/CartDrawer.tsx:27 | `stem.ext` becomes `stem` for any non-empty extension without `/` or `.` |
| CartDrawer.ChoiceLine | components/CartDrawer.tsx:25-29 | a photo's line is `✅ *` + name + `*` without an event name, and `✅ *[event] ` + name + `*` with one; it contains the cleaned name and the event prefix |
| CartDrawer.ChoiceLines | components/CartDrawer.tsx:25-30 | one line per cart item, in cart order |
| CartDrawer.ChoiceLineIsOneLine | components/CartDrawer.tsx:29 | a photo whose names have no line break gives a line without line breaks |
| CartDrawer.ChoiceListLines | components/CartDrawer.tsx:25-30 | splitting the joined list on line breaks gives back exactly the photo lines |
| CartDrawer.BodyParts | components/CartDrawer.tsx:32-40 | the template has nine pieces before the optional savings line, opening with the greeting and ending in a line break; this shape is what `CheckoutSavingsIffDiscount` needs, and the pieces' content is stated by the message lemmas below |
| CartDrawer.CheckoutMessage | components/CartDrawer.tsx:32-43 | the message opens with the greeting and ends with the request for the PIX key |
| CartDrawer.BodyPartInMessage | components/CartDrawer.tsx:32-43 | each template piece occurs in the message |
| CartDrawer.CheckoutListsEveryItem | components/CartDrawer.tsx:25-35 | every cart item's line and cleaned name occur in the message |
| CartDrawer.CheckoutStatesFigures | components/CartDrawer.tsx:38-40 | the message states the photo count, the unit price and the total of the cart's pricing |
| CartDrawer.CheckoutSavingsIffDiscount | components/CartDrawer.tsx:41-43 | the message ends with the savings line followed by the closing question exactly when the cart has a discount |
| CartDrawer.CheckoutUrl | components/CartDrawer.tsx:45-46 | the link starts with `https://wa.me/5531993430851?text=` |
| CartDrawer.CheckoutUrlRoundTrip | components/CartDrawer.tsx:45-46 | decoding what follows the prefix gives back the message, for any encoding its decoder inverts |
| CartDrawer.ItemsNeeded | components/CartDrawer.tsx:50-51 | the number of photos needed is zero exactly from six photos |
| CartDrawer.ItemsNeededReachesNextTier | components/CartDrawer.tsx:50-51 | adding that many photos lowers the unit price, and adding fewer does not |
| CartDrawer.NextPriceLabel | components/CartDrawer.tsx:52 | while photos are still needed, the banner's price is the unit price reached after adding them |
| CartDrawer.Rows | components/CartDrawer.tsx:108-139 | one row per item, in cart order |
| CartDrawer.Drawer | components/CartDrawer.tsx:21-187 | nothing renders for an empty cart; the trigger shows while the drawer is closed and the overlay and panel while it is open; the banner shows below six photos, the savings line from three; each row's remove button removes that row's item |
| CartDrawer.TierBarMatchesPrice | components/CartDrawer.tsx:153-164 | a tier segment is lit exactly when the unit price is at most that segment's price |
| CartDrawer.DrawerNamesInMessage | components/CartDrawer.tsx:109-110 | each row's name occurs in the checkout message |
| EventView.NextIndex | pages/EventView.tsx:91-96 | from a valid index, next is the following index modulo the photo count |
| EventView.PrevIndex | pages/EventView.tsx:98-103 | from a valid index, previous is the preceding index modulo the photo count |
| EventView.NextPrevInverse | pages/EventView.tsx:91-103 | next and previous undo each other |
| EventView.NextTimesBeforeEnd | pages/EventView.tsx:94 | before the last photo, k presses of next move k photos on |
| EventView.NextTimesAdd | pages/EventView.tsx:94 | a presses then b presses are a + b presses |
| EventView.NextCycle | pages/EventView.tsx:94 | as many presses of next as there are photos return to the starting photo |
| EventView.DownloadName | pages/EventView.tsx:283 | the file name starts with `pickleballbh-<event>-` and ends with `.jpg` |
| EventView.DownloadNameInjective | pages/EventView.tsx:283 | within an event, different photo ids give different file names |
| EventView.Counter | pages/EventView.tsx:244 | split on spaces, the counter reads as the 1-based position, `/` and the photo count |
| EventView.EventPage.constructor | pages/EventView.tsx:76 | the page starts with the lightbox closed |
| EventView.EventPage.OpenPhoto | pages/EventView.tsx:218 | clicking a photo opens the lightbox on it |
| EventView.EventPage.Next | pages/EventView.tsx:91-96 | no effect while closed; otherwise moves to the next index and stays on a valid photo |
| EventView.EventPage.Prev | pages/EventView.tsx:98-103 | no effect while closed; otherwise moves to the previous index and stays on a valid photo |
| EventView.EventPage.Close | pages/EventView.tsx:240-248 | the close button and backdrop close the lightbox |
| EventView.EventPage.KeyDown | pages/EventView.tsx:105-111 | keys are ignored while closed; ArrowRight is next, ArrowLeft previous, Escape closes, other keys do nothing |
| EventView.EventPage.Lightbox | pages/EventView.tsx:137-287 | the lightbox renders exactly when a photo is selected, shows that photo with its counter, and offers it under its download name |
| EventView.NextThenPrevRestores | pages/EventView.tsx:91-103 | next then previous returns to the same state |
| Home.MatchesCategory | pages/Home.tsx:53-55 | an event with neither category nor tags never matches; a category equal to the selection up to case matches, and so does a tag equal to it |
| Home.MatchesSearch | pages/Home.tsx:58-65 | the empty term matches every event, and a title equal to the term up to case matches |
| Home.VisibleEvents | pages/Home.tsx:50-69 | the shown list keeps the loaded order, and holds an event iff it passes the category test (unless 'Todos') and the search test (unless the term is empty) |
| Home.ShowAll | pages/Home.tsx:51-59 | with 'Todos' and an empty search every loaded event is shown |
| Home.SearchIgnoresCase | pages/Home.tsx:60 | searching for a term and for its lower-case form show the same list |
| Home.CategoryLabel | pages/Home.tsx:77 | every event has a non-empty pill label |
| Home.Labels | pages/Home.tsx:77 | dropping empty labels drops nothing |
| Home.Categories | pages/Home.tsx:77 | the pills are 'Todos' followed by the events' labels passed through the `Set` de-duplication (so in first-appearance order, by `Seqs.DedupFirstAppearanceOrder`), no label twice, and a label is a pill iff some event carries it |
| Home.DefaultPillHidesUncategorised | pages/Home.tsx:55 | an event without category or tags gets a 'Geral' pill, and choosing that pill hides it |
| Home.VisibleEventsByLabel | pages/Home.tsx:50-77 | as VisibleEvents, with the category test reading the label the pill shows |
| Home.EveryPillShowsAnEvent | pages/Home.tsx:77 | with the corrected test, every pill shows at least one event while the search is empty |
| Home.ByLabelAgreesWhenCategorised | pages/Home.tsx:55 | when every event has a category, the corrected and the written filter agree |
| Home.Shown | pages/Home.tsx:50-69 | the page shows the loaded events, in order, that pass the category test as written (unless 'Todos') and the search test (unless the term is empty) |
| Home.ClearFilters | pages/Home.tsx:221 | clearing the filters keeps the loaded events |
| Home.ClearFiltersShowsAll | pages/Home.tsx:221 | after clearing the filters every loaded event is shown |
| Home.ClearFiltersRestoresInitial | pages/Home.tsx:36-37 | clearing returns the filters to their initial values |
| Admin.AvatarUrl | pages/Admin.tsx:94 | the generated cover is the avatar service URL carrying the encoded title |
| Admin.CreateEventRequest | pages/Admin.tsx:76-78 | nothing is created iff title, date or location is missing or empty |
| Admin.CreateEventRequestFields | pages/Admin.tsx:80-95 | an accepted form keeps title, date and location as typed; description, organizer, category and status default to '', 'PickleballBH', 'Geral' and completed; tags are parsed; an empty cover becomes the avatar URL |
| Admin.BlankFormIsRejected | pages/Admin.tsx:102 | the reset form cannot create an event |
| Admin.EventTagsRoundTrip | pages/Admin.tsx:83 | tags typed as "a, b, c" become exactly those tags |
| Admin.CreatedEventIsComplete | pages/Admin.tsx:85-97 | an event created from the form is stored with organizer, category, cover and status set, no photos counted, and clean tags |
| Admin.CreatedEventShownUnderItsPill | pages/Admin.tsx:92 | an event created from the form is shown by its own home-page pill, even with the category test as written |
| Admin.NewDrafts | pages/Admin.tsx:118-124 | one draft per file, in order, with its preview and empty caption and tags |
| Admin.WithField | pages/Admin.tsx:135 | the edited field takes the value and every other field of the draft stays |
| Admin.Without | pages/Admin.tsx:144 | one element fewer, the earlier ones in place and the later ones one slot down |
| Admin.WithoutLosesOnlyThat | pages/Admin.tsx:144 | removal loses exactly the removed draft |
| Admin.SpliceOut | pages/Admin.tsx:140-144 | copying the list and splicing out one index in place yields the list without that draft |
| Admin.AdminPage.constructor | pages/Admin.tsx:20-38 | the page starts with a blank form, no target event, nothing staged and both modals closed |
| Admin.AdminPage.SubmitEvent | pages/Admin.tsx:76-104 | the event sent is the form's request; after a submission the form and tags are reset and the modal closes; a rejected form changes nothing |
| Admin.AdminPage.ChooseEvent | pages/Admin.tsx:290-291 | the row's event becomes the upload target |
| Admin.AdminPage.FileSelect | pages/Admin.tsx:115-131 | without files or target nothing changes; otherwise new drafts are appended after the staged ones and the staging modal opens |
| Admin.AdminPage.UpdateDraft | pages/Admin.tsx:133-137 | only the chosen field of the chosen draft changes; length and all other drafts stay |
| Admin.AdminPage.RemoveDraft | pages/Admin.tsx:139-145 | exactly that draft goes, the rest keep their order, and the modal closes when none remain |
| Admin.AdminPage.ConfirmUpload | pages/Admin.tsx:147-165 | nothing is sent without a target or with nothing staged; otherwise target and drafts are sent; on success staging empties, the modal closes and the target clears; on failure all stays |
| Admin.AdminPage.Cancel | pages/Admin.tsx:500-504 | cancelling empties staging, closes the modal and clears the target |
| Admin.SelectThenUpload | pages/Admin.tsx:115-165 | picking files for an event and a successful upload send the staged and new drafts and leave staging empty |
| DataService.CreateEvent | services/dataService.ts:64-79 | the stored event has the new id, the clock's time, no photos, totalPhotos 0, the given status or completed, and every other field as given |
| DataService.CleanData | services/dataService.ts:90-92 | a field is kept iff its value is defined, with that value |
| DataService.ApplyUpdate | services/dataService.ts:86-93 | defined fields are overwritten and every other stored field keeps its value |
| DataService.ApplyUpdateIdempotent | services/dataService.ts:86-93 | applying the same update twice is applying it once |
| DataService.PhotoRecordFor | services/dataService.ts:110-117 | the record has the URL, caption and time, and its tags are non-empty, trimmed and comma-free |
| DataService.PhotoTagsRoundTrip | services/dataService.ts:110 | tags typed as "a, b, c" are stored as exactly those tags |
| DataService.AfterUpload | services/dataService.ts:124-131 | only an existing event's count changes, to its previous count (or 0) plus the number of drafts |
| DataService.UploadsAccumulate | services/dataService.ts:124-131 | two uploads to an event add up |
| DataService.NewEventCountsUploads | services/dataService.ts:69 | a freshly created event counts exactly the photos uploaded to it |
| DataService.ListEvents | services/dataService.ts:25-29 | one event per document, with the document's id and no photos |
| DataService.Storage.constructor | services/dataService.ts:149-163 | the storage starts with the given entries |
| DataService.Storage.IsAdmin | services/dataService.ts:149-151 | the user is admin only when the flag is stored, and a stored value other than 'true' is not admin |
| DataService.Storage.Login | services/dataService.ts:153-159 | succeeds iff the password is 'admin123', then sets the flag to 'true'; a wrong password changes nothing |
| DataService.Storage.Logout | services/dataService.ts:161-163 | removes the flag and nothing else, so the user is no longer admin |
| DataService.LoginThenLogout | services/dataService.ts:149-163 | login then logout leaves no admin flag and all other entries as they were |
| Text.TrimSplits | services/dataService.ts:110 | `trim` splits a string into leading whitespace, the trimmed text and trailing whitespace |
| Text.TrimExactly | services/dataService.ts:110 | `trim` of whitespace, a trimmed text and whitespace is exactly that text |
| Text.JoinSplit | services/dataService.ts:110 | `split` loses nothing: joining the pieces with the separator gives the string back |
| Text.ParseTags | services/dataService.ts:110 | every parsed tag is non-empty, trimmed and free of commas |
| Text.ParseTagsRoundTrip | pages/Admin.tsx:83 | parsing tags joined with ", " gives back the tags |
| Text.Fixed2 | components/CartDrawer.tsx:39-41 | `toFixed(2)` of a whole amount is its digits followed by `.00` |
| Text.NatToStringRoundTrip | components/CartDrawer.tsx:38 | the rendered count reads back as the count |
| Seqs.Dedup | pages/Home.tsx:77 | `Array.from(new Set(s))` holds every element of `s` and nothing else, each once |
| Seqs.DedupFirstAppearanceOrder | pages/Home.tsx:77 | `Array.from(new Set(...))` keeps each value at its first appearance, in order |

## Left out

- Firestore and Storage calls are not modelled. This covers the `getDocs`, `getDoc`, `addDoc`, `updateDoc`, `deleteDoc`, `uploadBytes` and `getDownloadURL` calls in `services/dataService.ts`, their error paths, and the `Promise.all` upload fan-out. The store is a map from document id to event. Whether a call succeeded is a parameter.
- The order of `getEvents` and `getEventById` (newest first) is left out because the query does it in the store.
- A stored document that carries its own `id` field would override the document id in the list view. `DataService.ListEvents` assumes stored documents have no `id` field, as `createEvent` never writes one.
- The clock is the parameter `now`.
- `encodeURIComponent` and its decoder are function parameters. `URL.createObjectURL` is the parameter `objectUrl`. `revokeObjectURL`, `window.open`, `alert`, `window.confirm`, scrolling, the share button and the keydown listener's registration are browser effects and are not modelled.
- `toLowerCase` and `toUpperCase` map ASCII and Latin-1 letters one to one. Unicode case mappings outside Latin-1, and those that change a string's length, are not modelled.
- CartContext.DiscountPercent: the ratio is exact rather than a floating-point division.
- Prices are whole numbers, so `toFixed(2)` always ends in `.00`. General floating-point rendering is not modelled.
- `useCart`'s error outside a provider is not modelled (`context/CartContext.tsx:94-100`). It is a React wiring check with no business rule.
- Loading flags, the reload of the dashboard and of the event list after each change, and the Gemini-generated description are left out. These are presentation or external calls.
- `createEvent` throwing is not modelled. The form's reset is modelled only for the successful case.
- The admin chart and its random engagement figures are left out, as is the login screen's form handling around `login`.
- The date badge and date formatting on the home page are left out because they are presentation.
- Admin.AdminPage.ConfirmUpload: clearing staging on success is modelled as happening in the same step as sending. Files added while the upload is in flight are not modelled.
- EventView.EventPage: the page is modelled once its event has loaded. The loading and not-found screens are left out.

## Findings

| source | as written | input that shows it | evidently intended | confidence | as-written member | corrected member |
|---|---|---|---|---|---|---|
| pages/Home.tsx:55 | the category filter reads `e.category`, while the pills at `pages/Home.tsx:77` show `e.category \|\| 'Geral'` | one event with no category and no tags: its 'Geral' pill is offered, and choosing it shows an empty list | the filter reads the same label the pill shows, so every pill shows at least the events that produced it | not executed | Home.DefaultPillHidesUncategorised | Home.EveryPillShowsAnEvent |

The home page's state, `Home.Shown`, keeps the filter as written. The corrected filter is `Home.VisibleEventsByLabel`. `Home.ByLabelAgreesWhenCategorised` proves that the two agree whenever every event has a category. `Admin.CreatedEventShownUnderItsPill` shows that events created through the admin form are never affected.
