# ShoppingList in Dafny

A model of the logic inside ShoppingList, a family shopping-list web app with an Express/MongoDB server, socket.io for realtime updates and a React client. Each module below models one source file, and the proofs are about those models.

**Server side:**
- **Shop store** (`ShopModel`, `ShopRoutes`):
  - adding, editing, deleting and reordering a shop's items;
  - the advisory per-item lock, whose five-minute time-to-live is checked lazily;
  - shop creation, patch and delete.
- **Family rules** (`FamilyRoutes`):
  - the admin gate, duplicate-member rejection and the last-admin protections;
  - the invariant these give: every family keeps at least one admin.
- **Presence registry** (`Presence`):
  - who is online, who is in which shop, and the socket rooms;
  - relaying edits to a shop's room, except the sender.
- **Push subscriptions** (`PushRoutes`): the table of push subscriptions, keyed by the request's user ObjectId.

**Client side:**
- **Socket lifecycle** (`SocketClientModel`): the connection state machine, with its queued shop joins.
- **Cache merge** (`SocketConnection`): how a relayed change is merged into the cached item list.
- **Item views** (`ShopItemsView`, `ItemListView`, `LegacyShopItems`): the display ordering, the drag rules, and the requests the item views send.
- **Translations** (`Language`): the dot-path translation lookup.
- **Push key decoding** (`UrlBase64`): the base64url key decoding used to subscribe to push.

The server is modelled as an in-memory store:
- the caller is already authenticated;
- `now` is the server clock as an integer number of milliseconds;
- an HTTP status is a `Response` value (`Common.Status` gives the code).

Mutable handlers are methods on classes (`ShopStore`, `FamilyStore`, `Registry`, `PushTable`, `SocketClient`, `LanguageProvider`). Each decision they take about one value is a function with its own contract. Across modules:
- JavaScript truthiness (`""` and absent are falsy) and `||` are written out.
- A JavaScript `Map` or `Set` whose iteration order matters is an insertion-ordered sequence of pairs (`Common.Assoc`).
- socket.io sockets, timers and the browser's `atob` are abstract: callbacks are methods the environment may call, and what is sent is recorded.

Where the code and its design intent differ, the model follows the code:
- `PATCH /api/shops/:id` has its family check commented out (server/src/routes/shops.js:45-47), so `PatchShop` never answers 403.
- The item sub-document of server/src/models/Shop.js declares no lock fields, yet the handlers read and write `lockedBy`, `lockedAt` and `lockedByName`. Mongoose neither saves nor returns a property missing from the schema, so the fields are never stored: `POST .../lock` keeps nothing and replies without them, every later request reads `lockedBy` as undefined, and the 423 of lock and update and the 403 of unlock never happen. A deployed lock therefore never blocks anyone. `ShopModel.Item` carries the fields, and the store models the handlers over a record that keeps them, as their code intends.
- A lock time of null is read as the epoch, as `new Date(null)` does.
- Ordering is integer renumbering (the reorder endpoint) or direct assignment of `order` (the update endpoint). There is no fractional ordering.
- Pending joins are not deduplicated: each queued join is a new object, so the same pair can wait twice.
- An 'added' change is appended even when its id is already cached.
- server/src/models/User.js declares no `pendingSetup` field, although the add-member handler sets it. `FamilyRoutes.User` carries it.
- server/src/models/Family.js is not part of this model; a family is the record the handlers use.
- server/src/models/User.js declares `familyId` and no `currentFamilyId`, yet the shop handlers read `req.user.currentFamilyId`, which is therefore always undefined:
  - `CreateShop` stores what it is given for the family; from the handler that is nothing;
  - `DeleteShop` answers 500 for an absent family id, because reading `._id` of undefined throws into the handler's catch (server/src/routes/shops.js:73, 92-94). Given the schema, every delete of an existing shop ends there (see Findings).
- The push table's key is `req.user?._id`, an ObjectId object, and a fresh instance comes with every request, since the user is loaded anew for each one (server/src/index.js:117-120). A `Map` compares object keys by identity, so a second subscription of the same user is a second entry, and a lookup with a string or with another request's ObjectId finds nothing. `PushTable` keys entries by instance.
- client/src/components/ShopItems.jsx, the older item view, cannot load as written: it imports a named `socket` (line 8) that client/src/socket.js does not export, since that file only has a default export (lines 181-183). It is imported only by client/src/components/ShopList.jsx, which the app does not use (client/src/App.jsx:4 takes the list from `./components/shop-list`). `LegacyShopItems` models the file's logic as written, which no running page reaches.

## Model

| member | source | states |
|---|---|---|
| ShopModel.NewItem | server/src/models/Shop.js:8-16 | a pushed item gets quantity 1, unit "ks", not completed, order 0, `createdAt` now, and no lock |
| ShopModel.NewShop | server/src/models/Shop.js:3-7 | a shop without an icon gets U+1F3EA, and every new shop starts with an empty item array |
| ShopRoutes.Acquire | server/src/routes/shops.js:137-152 | the lock succeeds exactly when the item is unlocked, already the caller's, or locked more than 300000 ms ago; success records the caller, now and the caller's name; refusal is 423 carrying the holder's name |
| ShopRoutes.Release | server/src/routes/shops.js:172-183 | refused with 403 exactly when another user's lock is at most 300000 ms old; otherwise all three lock fields are cleared |
| ShopRoutes.PatchFields | server/src/routes/shops.js:213-217 | `completed` and `order` are written whenever present, so false and 0 are written; name, quantity and unit only when truthy; identity, authorship and lock fields are untouched |
| ShopRoutes.ApplyEdit | server/src/routes/shops.js:201-222 | an edit is refused exactly when a lock request would be; a successful edit applies the fields and leaves the item unlocked |
| ShopRoutes.FindItem | server/src/routes/shops.js:254 | the first index whose id matches, or none when no item has that id |
| ShopRoutes.SpliceStart | server/src/routes/shops.js:260 | the insertion point of `splice(order, 0, x)`: negative starts count from the end, and every start is clamped into the array |
| ShopRoutes.MovedFacts | server/src/routes/shops.js:259-260 | the two splices keep the length and put the moved item at the insertion point; removing it again gives the array without it, so the others keep their relative order; the result is a permutation |
| ShopRoutes.Renumber | server/src/routes/shops.js:263-265 | the loop sets every item's order to its index and changes nothing else |
| ShopRoutes.ReorderFacts | server/src/routes/shops.js:254-265 | after the reorder every order equals its position; for an in-range target the moved item sits at that index; the other items keep their relative order |
| ShopRoutes.WithoutIdKeepsOthers | server/src/routes/shops.js:237 | the filter drops exactly the items with that id, keeps every other item as often as it occurs, and keeps the survivors in order (filtering splits over any prefix and the rest) |
| ShopRoutes.ShopStore.GetItems | server/src/routes/shops.js:99-107 | 404 for an unknown shop, otherwise the item array |
| ShopRoutes.ShopStore.CreateShop | server/src/routes/shops.js:24-37 | stores a new shop with the given family id (the handler's `req.user.currentFamilyId`) and answers 201 with it |
| ShopRoutes.ShopStore.PatchShop | server/src/routes/shops.js:40-57 | 404 for an unknown shop; a truthy name or icon replaces the stored one; there is no family check |
| ShopRoutes.ShopStore.DeleteShop | server/src/routes/shops.js:60-96 | 404 for an unknown shop; 500 when the caller's family id is absent, because reading its `._id` throws; otherwise 403 unless both family ids are truthy and equal, and then the shop is gone |
| ShopRoutes.CreateThenDeleteAsWritten | server/src/routes/shops.js:24-96 | a user document as the schema defines it creates a shop without a family and then gets 500 when deleting it |
| ShopRoutes.CreateThenDeleteByFamily | server/src/routes/shops.js:24-96 | with the user's `familyId` read in both handlers, a user with a family deletes the shop they created |
| ShopRoutes.ShopStore.AddItem | server/src/routes/shops.js:110-126 | appends exactly one new item with the request name and the caller as author, defaults otherwise; answers 201 with the new last element |
| ShopRoutes.ShopStore.Lock | server/src/routes/shops.js:129-161 | 404 for an unknown shop or item; otherwise the item becomes what `Acquire` gives, or stays as it was on 423 |
| ShopRoutes.ShopStore.Unlock | server/src/routes/shops.js:164-190 | 404 for an unknown shop or item; otherwise the item follows `Release`, unchanged on 403 |
| ShopRoutes.ShopStore.UpdateItem | server/src/routes/shops.js:193-229 | 404 for an unknown shop or item; otherwise the item follows `ApplyEdit`, unchanged on 423 |
| ShopRoutes.ShopStore.DeleteItem | server/src/routes/shops.js:232-244 | 404 only for an unknown shop; every item with that id is removed, there is no lock check, and a missing id still succeeds |
| ShopRoutes.ShopStore.Reorder | server/src/routes/shops.js:247-272 | 404 for an unknown shop or item; otherwise the items become the moved list, renumbered |
| FamilyRoutes.AdminGate | server/src/routes/family.js:18-38 | 404 exactly for an unknown family; passes exactly when the caller's first entry has role "admin"; 403 otherwise |
| FamilyRoutes.CreateFamily | server/src/routes/family.js:56-74 | the only member is the caller as admin, the creator is the caller, and the family is valid |
| FamilyRoutes.AddMemberTo | server/src/routes/family.js:96-110 | 400 exactly when the user is already a member, leaving the members unchanged; otherwise one entry is appended with `role` or "member" |
| FamilyRoutes.NameFromEmail | server/src/routes/family.js:86-92 | the placeholder user's name is the text before the first '@', or the whole address |
| FamilyRoutes.FindUser | server/src/routes/family.js:84 | the first user with that email (no earlier user has it), or none when no user has it |
| FamilyRoutes.ChangeRoleIn | server/src/routes/family.js:134-150 | 404 exactly for a non-member; 400 exactly when the target is an admin and the only one, even if the new role is admin; otherwise only that entry's role changes |
| FamilyRoutes.RemoveFrom | server/src/routes/family.js:173-184 | 400 exactly when the caller removes themselves while the family has one admin; otherwise every entry of that user is filtered out |
| FamilyRoutes.RemoveNonMember | server/src/routes/family.js:182-184 | removing somebody who is not a member leaves the members as they were |
| FamilyRoutes.WithoutUserKeeps | server/src/routes/family.js:182-184 | an entry survives the filter exactly when it belongs to another user |
| FamilyRoutes.AddMemberKeepsValid | server/src/routes/family.js:96-110 | adding a member keeps at least one admin and distinct member ids |
| FamilyRoutes.ChangeRoleKeepsValid | server/src/routes/family.js:142-150 | a role change never leaves a family without an admin |
| FamilyRoutes.RemoveKeepsValid | server/src/routes/family.js:173-184 | since only an admin passes the gate, a removal never leaves a family without an admin |
| FamilyRoutes.TwoAdmins | server/src/routes/family.js:174-178 | a family with more than one admin has two distinct admin entries |
| FamilyRoutes.FamilyStore.Create | server/src/routes/family.js:56-74 | stores the new family under its id and keeps every family valid |
| FamilyRoutes.FamilyStore.AddMember | server/src/routes/family.js:77-125 | gate first; an unknown email first creates a placeholder user (pending setup, name from the email), even if the request then fails; then the `AddMemberTo` outcome is stored |
| FamilyRoutes.FamilyStore.ChangeRole | server/src/routes/family.js:128-163 | gate, then the `ChangeRoleIn` outcome is stored; every family stays valid |
| FamilyRoutes.FamilyStore.RemoveMember | server/src/routes/family.js:166-192 | gate, then the `RemoveFrom` outcome is stored; every family stays valid |
| Presence.JoinedFacts | server/src/index.js:153-156 | a join creates the shop's set if needed and adds the user, and no other shop changes |
| Presence.JoinIdempotent | server/src/index.js:153-156 | joining the same shop twice as the same user equals joining once |
| Presence.FirstUserOf | server/src/index.js:183-188 | the user of the first entry, in insertion order, mapped to the socket; none when no entry maps to it |
| Presence.FindUserOfSocket | server/src/index.js:182-188 | the search loop with `break` finds exactly `FirstUserOf` |
| Presence.LeaveAllShops | server/src/index.js:193-201 | the loop removes the user from every shop set, and reports the shops that held the user, in table order |
| Presence.LeftAllNoop | server/src/index.js:193-201 | a user in no shop leaves the shop table unchanged |
| Presence.Registry.UserConnected | server/src/index.js:144-147 | the user maps to this socket, replacing an earlier one; other users are untouched; every socket hears the online list |
| Presence.Registry.JoinShop | server/src/index.js:150-163 | the socket joins the room, the shop table becomes `Joined`, and the room hears the shop's users |
| Presence.Registry.StartEditing | server/src/index.js:166-168 | relayed to exactly the room's sockets other than the sender |
| Presence.Registry.StopEditing | server/src/index.js:171-173 | relayed to exactly the room's sockets other than the sender |
| Presence.Registry.ItemChanged | server/src/index.js:176-178 | type, data and userId are relayed unchanged as `itemUpdate` to exactly the room's sockets other than the sender |
| Presence.Registry.ShopUsersMessages | server/src/index.js:193-200 | one `shopUsers` message per given shop, in that order, each to the shop's room with the users now in its set |
| Presence.Registry.Disconnect | server/src/index.js:181-204 | for a socket with a user, that user leaves the online map and every shop set, and other users are untouched; for each shop that held the user, in table order, its room hears that shop's remaining users; then every socket hears the online list; a socket without a user changes neither table |
| PushRoutes.PushTable.Subscribe | server/src/routes/push.js:34-48 | 401 with the table unchanged without a user; otherwise 201, the subscription appended under this request's new ObjectId, so no earlier entry, not even the same user's, is replaced |
| PushRoutes.PushTable.SendNotification | server/src/routes/push.js:50-71 | nothing happens unless a subscription is stored under that very key, so a string key never finds one; otherwise the payload has title "Nákupní Seznam" and the message as body; a 410 failure deletes that entry and no other, any other outcome keeps it |
| PushRoutes.SubscribeTwice | server/src/routes/push.js:34-52 | two subscriptions of one user are two entries under two keys, each still found under its own key, and the user id as a string finds neither |
| SocketClientModel.MakePayload | client/src/socket.js:139-149 | the sender is `data.userId` or the client's user; the name is `data.userName` or `data.lockedByName`, copied into the item |
| SocketClientModel.JoinEmits | client/src/socket.js:61-63 | one join message per queued pair, in queue order |
| SocketClientModel.SocketClient.Connect | client/src/socket.js:15-52 | a falsy user rejects and changes nothing; a connected socket resolves at once; otherwise an unconnected socket is closed, and a new one is created with its timeout armed and its promise pending |
| SocketClientModel.SocketClient.JoinShop | client/src/socket.js:112-126 | a falsy argument is ignored; while not connected the pair is queued, a repeat included; otherwise it is sent |
| SocketClientModel.SocketClient.OnConnect | client/src/socket.js:54-67 | connected, attempts reset, every queued join sent in order, the queue emptied, the timeout cleared, the promise resolved |
| SocketClientModel.SocketClient.OnConnectError | client/src/socket.js:69-84 | not connected, one more attempt, the timeout cleared; the promise rejects once attempts reach 10 if still pending, and is otherwise unchanged |
| SocketClientModel.SocketClient.OnDisconnect | client/src/socket.js:86-97 | not connected; a reconnect is scheduled only for "io server disconnect" |
| SocketClientModel.SocketClient.OnError | client/src/socket.js:99-102 | not connected, nothing else changes |
| SocketClientModel.SocketClient.OnConnectionTimeout | client/src/socket.js:46-52 | if still not connected it closes the current socket, whichever it is, and rejects the promise of the call that armed it |
| SocketClientModel.SocketClient.OnReconnectTimer | client/src/socket.js:92-95 | the scheduled timer calls `connect` with the stored user: a falsy user rejects and changes nothing; a connected socket resolves at once; otherwise an unconnected socket is closed and a new one is created with its timeout armed and its promise pending; the queue, the user and the attempts are kept |
| SocketClientModel.SocketClient.EmitItemChange | client/src/socket.js:128-158 | dropped, not queued, unless connected with truthy type, shop and data; otherwise `MakePayload` is sent |
| SocketClientModel.SocketClient.DisconnectClient | client/src/socket.js:169-178 | with a socket, resets socket, connection, queue, user and attempts; without one, changes nothing and keeps the queue |
| SocketConnection.ReplaceById | client/src/hooks/useSocketConnection.js:25-26 | every entry with the item's id becomes the item, and the length is kept |
| SocketConnection.Merge | client/src/hooks/useSocketConnection.js:14-36 | a change from the local user leaves the cache alone; with no cached list the result is `[item]` |
| SocketConnection.UpdatedMerge | client/src/hooks/useSocketConnection.js:25-26 | 'updated' keeps length and order, replaces matching entries, and inserts nothing when the id is absent |
| SocketConnection.AddedMerge | client/src/hooks/useSocketConnection.js:27-28 | 'added' appends; a repeat grows the list again, so it is not idempotent |
| SocketConnection.DeletedMerge | client/src/hooks/useSocketConnection.js:29-30 | 'deleted' keeps exactly the entries with another id, and applying it twice equals applying it once |
| SocketConnection.DropByIdSubsequence | client/src/hooks/useSocketConnection.js:29-30 | the filter drops exactly the entries with the id, keeps every other one as often as it occurs and in order (it splits over any prefix and the rest), and is idempotent |
| SocketConnection.OtherMerges | client/src/hooks/useSocketConnection.js:20-32 | with no cache even a deletion yields `[item]`; an unknown type leaves an existing list unchanged |
| SocketConnection.Mount | client/src/hooks/useSocketConnection.js:11-12 | on a client without a socket the join is queued behind a new socket; on a socket still connecting, that socket is closed, a new one made and the join queued; on a connected one it is sent at once; an empty user is rejected and nothing is queued |
| SocketConnection.MountThenConnect | client/src/hooks/useSocketConnection.js:11-12 | mount and then the connect event send the earlier queued joins and this one, in order, and leave the queue empty |
| SocketConnection.Cleanup | client/src/hooks/useSocketConnection.js:40-44 | the cleanup leaves no socket; the queue is emptied only if a socket existed |
| ClientItems.SortPermutes | client/src/components/shop-items/index.jsx:35 | sorting a copy neither loses nor invents an item |
| ClientItems.SortSorted | client/src/components/shop-items/index.jsx:35-51 | under a comparator that is never positive both ways round, neighbours come out in comparator order |
| ClientItems.SortAllEqual | client/src/components/shop-items/index.jsx:48-49 | a comparator that calls every pair equal keeps the stored order, as a stable sort must |
| ShopItemsView.CustomSortAscending | client/src/components/shop-items/index.jsx:46-47 | 'custom' shows ascending `order`, a missing order counting as 0 |
| ShopItemsView.CompletedSortGroups | client/src/components/shop-items/index.jsx:41-45 | 'completed' shows every uncompleted item before every completed one, each group in ascending order |
| ShopItemsView.DateSortNewestFirst | client/src/components/shop-items/index.jsx:39-40 | 'date' shows the newest `createdAt` first |
| ShopItemsView.NameSortCollated | client/src/components/shop-items/index.jsx:37-38 | 'name' shows neighbours in collation order and, when the collation is transitive, every pair |
| ShopItemsView.UnknownSortKeepsOrder | client/src/components/shop-items/index.jsx:48-49 | an unknown mode shows the stored order |
| ShopItemsView.DragUpdate | client/src/components/shop-items/index.jsx:17-33 | no destination, or the same index, sends nothing; otherwise one update for `items[source]` of the stored list, with only `order = destination` |
| ShopItemsView.DragUpdateDisplayed | client/src/components/shop-items/index.jsx:17-33 | the corrected drag updates the item displayed at the source position, which is one of the shop's items |
| ShopItemsView.DragUpdatesWrongItem | client/src/components/shop-items/index.jsx:25-27 | two items stored out of display order: dragging the top displayed item updates the other one |
| ShopItemsView.DragPatchWritesOnlyOrder | client/src/components/shop-items/index.jsx:29-32 | through the PATCH handler the drag's body is refused with 423 while another user holds a fresh lock; otherwise it writes the order, clears the lock and changes nothing else; no other item is renumbered |
| ShopItemsView.EditPatch | client/src/components/shop-items/index.jsx:70-80 | an edit sends name, quantity and unit and nothing else |
| ShopItemsView.TogglePatch | client/src/components/shop-items/index.jsx:82-87 | a toggle sends the negation of the displayed completion and nothing else |
| ShopItemsView.EditOnServer | client/src/components/shop-items/index.jsx:70-80 | on the server an edit keeps completion and order, also through the PATCH handler, and keeps the stored name, quantity or unit when the sent one is empty or 0 |
| ShopItemsView.ToggleOnServer | client/src/components/shop-items/index.jsx:82-87 | through the PATCH handler a toggle is refused with 423 while another user holds a fresh lock; otherwise it writes the new completion, false included, clears the lock and changes nothing else |
| ItemListView.DragRule | client/src/components/shop-items/ItemList.jsx:22-49 | drag is disabled outside 'custom' and for completed items, enabled exactly otherwise, and the card's flag is its negation |
| LegacyShopItems.CustomIsCompletedSort | client/src/components/ShopItems.jsx:222-228 | 'custom' and 'completed' show the same list, uncompleted first and each group by order, the same list as the newer view's 'completed' |
| LegacyShopItems.DateAndUnknownSort | client/src/components/ShopItems.jsx:220-230 | 'date' is newest first and an unknown mode keeps the stored order |
| LegacyShopItems.DragRequest | client/src/components/ShopItems.jsx:198-214 | no destination, or the same index, requests nothing; otherwise one reorder of `items[source]` of the stored list, to the destination index |
| LegacyShopItems.DragRequestDisplayed | client/src/components/ShopItems.jsx:198-214 | the corrected drag reorders the item displayed at the source position |
| LegacyShopItems.DragRequestsWrongItem | client/src/components/ShopItems.jsx:206-213 | a completed item stored first is displayed last, so dragging the top item asks to move the completed one |
| LegacyShopItems.SubmitAdd | client/src/components/ShopItems.jsx:173-182 | an add is sent exactly when the name has a non-whitespace character, and carries name, quantity and unit |
| LegacyShopItems.SubmitEdit | client/src/components/ShopItems.jsx:184-196 | an edit is sent exactly while an item is edited and its name has a non-whitespace character |
| LegacyShopItems.GuardedEditRenames | client/src/components/ShopItems.jsx:184-196 | an edit that passes the guard always renames the item on the server |
| LegacyShopItems.OnItemUpdate | client/src/components/ShopItems.jsx:24-28 | a relayed change triggers a refetch exactly when it comes from another user |
| Language.JoinSplit | client/src/contexts/LanguageContext.jsx:18 | joining the pieces of `key.split('.')` with dots gives the key back, and no piece contains a dot |
| Language.Catalogue | client/src/contexts/LanguageContext.jsx:19 | a catalogue exists exactly for "en" and "cs" |
| Language.WalkStopsAtMissing | client/src/contexts/LanguageContext.jsx:20-22 | once one step of the path finds nothing, the whole path finds nothing |
| Language.Translate | client/src/contexts/LanguageContext.jsx:16-26 | a missing path or an empty text yields the key; a found non-empty text or object is returned as it is; any other result is what the path found |
| Language.UnknownLanguage | client/src/contexts/LanguageContext.jsx:19-23 | a language without a catalogue answers every key with the key |
| Language.TwoPieceKey | client/src/contexts/LanguageContext.jsx:18-22 | a key `a.b` with dot-free pieces walks to entry `b` of entry `a` of the catalogue |
| Language.AppNameLookup | client/src/i18n/translations.js:2-40 | `t('app.name')` is "Shopping List" in English and "Nákupní seznam" in Czech |
| Language.SubtreeAndMissingLookup | client/src/contexts/LanguageContext.jsx:20-23 | 'app' yields the nested object, not the key; 'app.title' yields the key |
| Language.LanguageProvider.constructor | client/src/contexts/LanguageContext.jsx:8 | the initial language is the stored one, or "en" when none is stored |
| Language.LanguageProvider.SwitchLanguage | client/src/contexts/LanguageContext.jsx:10-14 | sets the language, stores it and sets the page's language |
| Language.LanguageProvider.T | client/src/contexts/LanguageContext.jsx:16-26 | the loop computes exactly `Translate` for the current language |
| UrlBase64.PadCount | client/src/components/NotificationPrompt.jsx:12 | at most 3, completes a multiple of 4, and is 0 for a length already a multiple of 4 |
| UrlBase64.PadCountLeast | client/src/components/NotificationPrompt.jsx:12 | no shorter padding completes a multiple of 4 |
| UrlBase64.ReplaceAll | client/src/components/NotificationPrompt.jsx:13 | a global one-character replace keeps the length and maps each character |
| UrlBase64.NormalizedFacts | client/src/components/NotificationPrompt.jsx:12-13 | the normalised key is the padded key with '-' as '+' and '_' as '/', other characters unchanged; its length is a multiple of 4; neither '-' nor '_' remains |
| UrlBase64.NormalizedStandard | client/src/components/NotificationPrompt.jsx:12-13 | a key already in multiples of 4 in the standard alphabet is unchanged |
| UrlBase64.UrlBase64ToBytes | client/src/components/NotificationPrompt.jsx:11-22 | fails where `atob` fails; otherwise a fresh array as long as the decoded text, where byte i is the character code of character i |
| Common.TrimNonEmpty | client/src/components/ShopItems.jsx:175-186 | `trim()` leaves something exactly when the text has a non-whitespace character |

## Findings

| source | as written | input that shows it | evidently intended | confidence | as-written member | corrected member |
|---|---|---|---|---|---|---|
| client/src/components/shop-items/index.jsx:25-31 | the dragged position, a position in the sorted display, indexes the unsorted `items` | items `a` (order 1), `b` (order 0) in 'custom': `b` is shown first; dragging it from 0 to 1 updates `a` | update the item shown at the dragged position | not executed | ShopItemsView.DragUpdate, ShopItemsView.DragUpdatesWrongItem | ShopItemsView.DragUpdateDisplayed |
| client/src/components/ShopItems.jsx:206-212 | the same indexing of the unsorted `items` by a display position | items `a` (completed, order 0), `b` (order 1): `b` is shown first; dragging it from 0 to 1 asks to move `a` | reorder the item shown at the dragged position | not executed; the file cannot load as written, so the bug is latent | LegacyShopItems.DragRequest, LegacyShopItems.DragRequestsWrongItem | LegacyShopItems.DragRequestDisplayed |
| server/src/routes/shops.js:73 | the handler reads `req.user.currentFamilyId`, a field the user schema (server/src/models/User.js:4-21) does not have | any user deleting any existing shop: `currentFamilyId` is undefined, reading `._id` throws, and the answer is 500 | read the user's `familyId`, so a family member can delete the family's shop | not executed | ShopRoutes.ShopStore.DeleteShop, ShopRoutes.CreateThenDeleteAsWritten | ShopRoutes.CreateThenDeleteByFamily |
| client/src/socket.js:46-52 | the connection timeout closes `this.socket`, the current socket, which a later `connect` may have replaced | `connect(u)`, again `connect(u)` before the first socket answers, then the first timeout fires: the second socket is closed before its own 10 s have passed | give up only on the socket the timeout was armed for | not executed | SocketClientModel.SocketClient.OnConnectionTimeout, SocketClientModel.StaleTimeoutClosesNewerSocket | SocketClientModel.SocketClient.OnConnectionTimeoutCorrected, SocketClientModel.CorrectedTimeoutKeepsNewerSocket |

## Left out

- Authentication: the `isAuthenticated` 401 middleware, Passport, Google OAuth and sessions. Every server caller is a given user.
- Persistence: MongoDB, Mongoose validation and `save`; a failed save's 500 or 400 is not modelled.
- `GET /api/family`, the list of the caller's families, and the `populate` calls. They are queries with no rule to state.
- HTTP and query plumbing: `useShops.js` and `useShopItems.js`, which are thin server calls. The nesting of the sent item in `useShopItems.js` is not modelled.
- End-to-end relay:
  - the client emits `itemChange`, the server listens for `itemChanged`, and the hook does not listen for the server's `itemUpdate`;
  - each side is modelled separately and the round trip is not claimed.
- Rendering: JSX, animation, icons, forms and cards, and the drag-and-drop library's internals.
- Concurrency: Node runs handlers one at a time, and each handler is one atomic method.
- Wall clock and timers: `now` is a parameter, and the 10 s and 2 s timers are events the environment fires.
- Browser APIs: the Notification and push-manager APIs, the service workers, `fetch` and `localStorage`, which is a field.
- `atob` is a parameter, not an implementation of base64 decoding.
- SocketClientModel.SocketClient.Connect: the `catch` for an exception thrown while creating the socket is not modelled, because the abstract socket factory does not throw.
- SocketClientModel.SocketClient.DisconnectClient: the `disconnect` event that `socket.disconnect()` fires is not replayed, because its only effect, `connected = false`, is already part of the method.
- The `onItemChange` helper of client/src/socket.js is left out: it only registers a callback.
- Collation and dates:
  - `localeCompare` is the abstract `collate`, assumed never positive both ways round;
  - `createdAt` is the already-parsed date in ms, so an invalid date (NaN) is not modelled.
- LegacyShopItems: models client/src/components/ShopItems.jsx as written, although that file cannot load and no page uses it.
- ShopRoutes.ShopStore.Lock, ShopRoutes.ShopStore.Unlock and ShopRoutes.ShopStore.UpdateItem: they store and answer with the lock fields the handlers write; the schema drops those fields, so the deployed program stores no lock and never answers 423 or 403 for one, which these methods do not capture.
- ShopRoutes.ShopStore.Reorder: takes `order` as an integer; the handler passes `req.body.order` to `splice` unchecked, so a missing `order` inserts at index 0 and a fractional one is truncated, and neither is modelled.
- PushRoutes.PushTable.SendNotification: `sendNotification` has no caller in the files modelled, so no change sends a notification and the key a caller would pass is a parameter.
- ShopItemsView.NameSortCollated: proves order between every pair only for a transitive `collate`, which `localeCompare` is assumed to be; without that, only neighbours.
- ClientItems.SortSorted: states order between neighbours only. The general stability of the sort is proved only in the all-equal case (`SortAllEqual`).
- Language.Child: indexing into a text (for example `'app.name.length'`) yields nothing in the model, although JavaScript would return the string's property. Inherited object properties such as `constructor` are not modelled either.
- Quantities are integers; the client's fractional quantities (step 0.1) are not modelled.
- `Date` values in records are integers of milliseconds.
