# WatchShot catalog, store and screen logic in Dafny

WatchShot lets a user place an Apple Watch screenshot onto artwork of a watch
model and share the composed image. Some models are free. Some are sold as
in-app purchases. Some are unlocked by a flag in the user defaults. This
project models the logic behind those features and proves properties of it:

- **Watch catalog** (`Watches`). `WatchManager`, `WatchSize` and `WatchModel`
  are classes. `WatchModel` keeps its store `product` and `receipt` as mutable
  fields.
  - A model's three descriptions come from the description tables. The last
    matching entry wins.
  - A model's ownership (Free, Owned, ForSale, Unavailable) is a
    precedence decision over its identifiers, the activation flag, the
    receipt and the product.
  - The visible `models` of a size are its non-unavailable models, in order.
  - There are three lookups: by screenshot size, by product identifier over
    every model (hidden ones included), and by filename suffix over the
    visible models only.
- **Store keeper** (`StoreKeeper`). The payment-queue rule decides which
  transactions of a batch are finished and whether the receipt is checked
  again.
  - The products response writes each product into its model.
  - The receipt callback writes each purchase record into its model.
  - Requests to the store, the payment queue and the receipt validator are
    returned as `StoreCommand` values.
- **Compose screen** (`Compose`). It keeps the selected model and the
  `updateSelectedModel` flag.
  - The selection is saved to and restored from the user defaults, one key
    per size.
  - The share/buy and restore buttons follow the selected model's
    ownership.
  - Taps, drags, scrolls and transaction batches move or refresh the
    selection. Requests to the platform are returned as `Effect` values.
- **Loading screen** (`Loading`). Routing (`updateViewControllers`) is a
  function of the controller's state and two inputs: the authorization
  status, and whether the authorization-error screen is on top. The fetch
  completion, `viewDidAppear` and the photo-library change callback update
  that state.

Everything the app gets from the platform is a parameter: the authorization
status, the item at the centre of the carousel, the fetch result and its
change details, the receipt validator's reports, and the store's products.
Everything the app asks of the platform is a returned value.

## Model

| member | source | states |
|---|---|---|
| `Watches.DescribeLastMatch` | WatchShot/Watches.swift:197-219 | When an entry matches and no later entry does, the description is that entry's text: the last match in table order wins. |
| `Watches.DescribeNoMatch` | WatchShot/Watches.swift:197-219 | When no entry matches, the description is "". |
| `Watches.ChooseDescription` | WatchShot/Watches.swift:197-219 | The loop that keeps the last match returns exactly the table's description, `Describe`, of which the two lemmas above state the meaning. |
| `Watches.WatchModel.constructor` | WatchShot/Watches.swift:191-220 | A new model keeps its suffix, product identifier and activation key. Its model and case descriptions match the suffix by prefix and its band description by suffix. It has no product and no receipt. |
| `Watches.WatchModel.CurrentOwnership` | WatchShot/Watches.swift:174-189 | Free iff the model has neither identifier. Otherwise: Owned iff the activation flag is set or a receipt is present; ForSale iff neither holds and a product is present; Unavailable iff none holds. |
| `Watches.Equal` | WatchShot/Watches.swift:317-319 | Equality compares suffixes only, so a model is equal to itself. |
| `Watches.Visible` | WatchShot/Watches.swift:88-90 | The filter keeps exactly the models that are not unavailable. It never grows the list. |
| `Watches.VisibleAppend` | WatchShot/Watches.swift:88-90 | The filter distributes over concatenation, so it preserves order. |
| `Watches.VisibleFirst` | WatchShot/Watches.swift:88-90 | The first visible model is the first model that is not unavailable. |
| `Watches.IndexOfSuffix` | WatchShot/Watches.swift:122-130 | Returns the first index with the suffix. Returns none iff no model has it. |
| `Watches.FirstWithIdentifier` | WatchShot/Watches.swift:61-71 | Finds a model iff some model has the identifier. A found model has it and is the first such model. |
| `Watches.FirstWithIdentifierSkip` | WatchShot/Watches.swift:61-71 | Models before the first match do not affect the search. |
| `Watches.Identifiers` | WatchShot/Watches.swift:48-58 | An identifier is listed iff some model has it. |
| `Watches.IdentifiersSnoc` | WatchShot/Watches.swift:52-54 | Each further model adds its identifier at the end of the list when it has one, and nothing otherwise. |
| `Watches.IdentifierFound` | WatchShot/Watches.swift:48-71 | An identifier is in the identifier list iff the search by identifier finds a model. |
| `Watches.InCatalog` | WatchShot/Watches.swift:50-51 | The catalog holds exactly the models of every size's full list. |
| `Watches.WatchSize.constructor` | WatchShot/Watches.swift:95-119 | The fixed fields come from the configuration entry. The full list has one model per configured filename, in order, with its identifier and activation key looked up by filename. No model has a product or a receipt yet. |
| `Watches.WatchSize.Models` | WatchShot/Watches.swift:88-90 | The visible models are exactly the models of the full list that are not unavailable. |
| `Watches.WatchSize.ModelForFilenameSuffix` | WatchShot/Watches.swift:122-130 | Returns the first visible model with the suffix, which is never unavailable. Returns none iff no visible model has it. |
| `Watches.WatchManager.constructor` | WatchShot/Watches.swift:20-34 | One size per configuration entry, each built from its entry. No model of the catalog has a product or a receipt. |
| `Watches.WatchManager.SizeForScreenshotSize` | WatchShot/Watches.swift:37-45 | Returns the first size with that screenshot size. Returns none iff no size has it. |
| `Watches.WatchManager.ProductIdentifiers` | WatchShot/Watches.swift:48-58 | Returns the identifiers of every model of every size, hidden models included, in size-then-model order. |
| `Watches.WatchManager.ModelForProductIdentifier` | WatchShot/Watches.swift:61-71 | Returns the first catalog model with the identifier, searching hidden models too. Returns none iff no model has it. |
| `StoreKeeper.Finishes` | WatchShot/StoreKeeper.swift:77-87 | Transaction k is finished iff it is Failed, Purchased or Restored. Finishes come in batch order. |
| `StoreKeeper.BatchCommands` | WatchShot/StoreKeeper.swift:73-92 | A batch issues only finishes and receipt checks. It finishes exactly its final transactions, each once and in batch order. It checks the receipt iff some transaction was Purchased or Restored. The check is issued at most once, last, for the catalog's identifiers. |
| `StoreKeeper.StoreKeeper.PaymentQueueUpdated` | WatchShot/StoreKeeper.swift:73-92 | The observer's loop issues exactly the batch's commands. |
| `StoreKeeper.LastProductWith` | WatchShot/StoreKeeper.swift:102-105 | Finds a product iff the response has one with the identifier. A found product comes from the response, has that identifier, and no later product of the response has it. |
| `StoreKeeper.ProductAfterResponseStep` | WatchShot/StoreKeeper.swift:102-105 | Each product of the response changes only the product of the model its identifier resolves to. |
| `StoreKeeper.StoreKeeper.ProductsResponse` | WatchShot/StoreKeeper.swift:99-106 | Each model that an identifier of the response resolves to holds the last product with that identifier. Every other model keeps its product. No receipt changes. |
| `StoreKeeper.StoreKeeper.ReceiptValidated` | WatchShot/StoreKeeper.swift:43-50 | The model the identifier resolves to gets the purchase record when present, and none otherwise. No other receipt changes and no product changes. |
| `StoreKeeper.CreatePurchase` | WatchShot/StoreKeeper.swift:61-66 | A purchase is one payment of quantity 1 for the product. |
| `StoreKeeper.RestorePurchases` | WatchShot/StoreKeeper.swift:54-58 | Restoring asks for a receipt refresh. |
| `StoreKeeper.StoreKeeper.CheckPurchases` | WatchShot/StoreKeeper.swift:31-37 | The products request asks for exactly the identifiers of the catalog's models. |
| `StoreKeeper.StoreKeeper.CheckReceipt` | WatchShot/StoreKeeper.swift:40-51 | The receipt check covers the catalog's identifiers, hidden models included. |
| `StoreKeeper.StoreKeeper.Start` | WatchShot/StoreKeeper.swift:17-24 | Start-up observes the queue, requests the products, then checks the receipt. |
| `StoreKeeper.StoreKeeper.RequestDidFinish` | WatchShot/StoreKeeper.swift:116-120 | A finished request is followed by one receipt check. |
| `Compose.SelectedModelKeyInjective` | WatchShot/ComposeViewController.swift:147-159 | Different filename prefixes give different defaults keys. |
| `Compose.SelectionFor` | WatchShot/ComposeViewController.swift:143-153 | None iff no model is visible. Otherwise a visible model with the stored suffix when one exists, and the first visible model when none does. |
| `Compose.SavedSelection` | WatchShot/ComposeViewController.swift:156-161 | Saving writes the selected suffix under the size's key. Every other key is unchanged. With no selection nothing changes. |
| `Compose.SaveThenLoad` | WatchShot/ComposeViewController.swift:143-161 | Saving a visible model and loading again selects a model equal to it. |
| `Compose.SaveKeepsOtherSizes` | WatchShot/ComposeViewController.swift:143-161 | Saving one size's selection does not change what another size loads. |
| `Compose.ButtonsFor` | WatchShot/ComposeViewController.swift:117-136 | Free or Owned: "Share", enabled, restore hidden. ForSale: "Buy - " and the price, enabled, restore shown. Unavailable: "Unavailable", disabled, restore shown. |
| `Compose.ShareOrBuyEffects` | WatchShot/ComposeViewController.swift:165-179 | Free or Owned shares. ForSale submits one purchase of the model's product, which exists. Unavailable does nothing. |
| `Compose.EnabledIffActs` | WatchShot/ComposeViewController.swift:117-177 | The share/buy button is enabled iff pressing it does something. |
| `Compose.TappedSelection` | WatchShot/ComposeViewController.swift:243-255 | A tap selects the tapped model unless an equal one is already selected. |
| `Compose.ScrolledSelection` | WatchShot/ComposeViewController.swift:278-295 | Scrolling changes the selection only while the flag is set, and only to the centre model. |
| `Compose.RefreshIffFinished` | WatchShot/ComposeViewController.swift:338-358 | The screen refreshes on a batch iff the store keeper finishes some transaction of it. |
| `Compose.ComposeController.constructor` | WatchShot/ComposeViewController.swift:29-36 | Initially nothing is selected, scrolling does not select, and the background is white. |
| `Compose.ComposeController.LoadSelectedModel` | WatchShot/ComposeViewController.swift:143-153 | The selection becomes the stored model, via the visible-model lookup, or else the first visible model. |
| `Compose.ComposeController.SaveSelectedModel` | WatchShot/ComposeViewController.swift:156-161 | The defaults get the saved selection. The flags are unchanged. |
| `Compose.ComposeController.UpdateViewForSelectedModel` | WatchShot/ComposeViewController.swift:113-138 | The buttons follow the selected model's ownership. Nothing changes with no selection. |
| `Compose.ComposeController.ViewDidLoad` | WatchShot/ComposeViewController.swift:42-81 | Loading observes the payment queue, hides restore and restores the saved selection. |
| `Compose.ComposeController.ViewWillAppear` | WatchShot/ComposeViewController.swift:83-102 | Appearing updates the buttons and scrolls to the first visible model equal to the selection. |
| `Compose.ComposeController.ViewWillDisappear` | WatchShot/ComposeViewController.swift:104-110 | Disappearing saves the selection. |
| `Compose.ComposeController.ShareOrBuy` | WatchShot/ComposeViewController.swift:165-179 | Pressing the button acts on the selected model. Only a purchase disables the button. |
| `Compose.ComposeController.RestorePurchasesConfirmed` | WatchShot/ComposeViewController.swift:181-189 | Confirming restore asks the store keeper to refresh the receipt. |
| `Compose.ComposeController.DidSelectItem` | WatchShot/ComposeViewController.swift:240-265 | Tapping the selected model shares it only when Free or Owned. Tapping another model selects it and updates the buttons. A tap never buys. A tap away from the centre scrolls there and clears the flag. |
| `Compose.ComposeController.WillBeginDragging` | WatchShot/ComposeViewController.swift:273-276 | Dragging sets the flag. |
| `Compose.ComposeController.DidScroll` | WatchShot/ComposeViewController.swift:278-295 | The selection moves as `ScrolledSelection` says. The buttons follow a change. |
| `Compose.ComposeController.ColorSelectionChanged` | WatchShot/ComposeViewController.swift:324-331 | The background colour becomes the picked colour, on the carousel too. |
| `Compose.ComposeController.PaymentQueueUpdated` | WatchShot/ComposeViewController.swift:338-358 | The screen refreshes the buttons and reloads iff some transaction is Failed, Purchased or Restored. |
| `Loading.ScreenshotSizes` | WatchShot/LoadingViewController.swift:48-50 | One pixel size per watch size, in order. |
| `Loading.FetchedHaveSize` | WatchShot/LoadingViewController.swift:48-53 | The fetch accepts a pixel size iff some watch size has it as its screenshot size. |
| `Loading.LoadingController.constructor` | WatchShot/LoadingViewController.swift:17-24 | Initially there is no fetch result, no expected change and no segue. |
| `Loading.LoadingController.UpdateViewControllers` | WatchShot/LoadingViewController.swift:80-107 | Stay until the view has appeared. Without authorization: refresh the error screen when it is on top, else perform AuthorizationErrorSegue. With authorization: LoadedSegue iff the result is non-empty; NoScreenshotsSegue iff it is empty and no change is expected; AuthorizedSegue iff no result exists yet and the error screen is on top. |
| `Loading.LoadingController.ViewDidLoad` | WatchShot/LoadingViewController.swift:30-71 | Loading observes changes, asks for authorization only when it is undetermined, and fetches the screenshots of every size. |
| `Loading.LoadingController.AuthorizationAnswered` | WatchShot/LoadingViewController.swift:38-44 | The authorization answer triggers routing. |
| `Loading.LoadingController.FetchCompleted` | WatchShot/LoadingViewController.swift:57-68 | The result is stored. A change is expected iff authorization is still undetermined. Then routing runs. |
| `Loading.LoadingController.ViewDidAppear` | WatchShot/LoadingViewController.swift:73-78 | Segues become possible before routing runs. |
| `Loading.LoadingController.PhotoLibraryDidChange` | WatchShot/LoadingViewController.swift:127-136 | A change to the fetch replaces the result and clears the expected change before routing. Other changes do nothing. |
| `Loading.LoadingController.PrepareForSegue` | WatchShot/LoadingViewController.swift:111-117 | LoadedSegue hands the current fetch result to the picker. |
| `Loading.LoadedHandsScreenshots` | WatchShot/LoadingViewController.swift:93-116 | Whenever routing loads the picker, the result it hands over holds at least one screenshot. |
| `Loading.EmptyEarlyFetchWaits` | WatchShot/LoadingViewController.swift:96-100 | An empty result while a change is expected never leads to the no-screenshots screen or to the picker. |

## Left out

- Image compositing (`createImageForScreenshot`) and the attributed description text. These are Core Graphics and UIKit drawing with floating-point colour arithmetic. The share sheet effect names the model and the background colour only.
- Price formatting with the currency formatter. A product carries its price as an already formatted string (`formattedPrice`).
- Loading the property list. The configuration is a parameter of `WatchManager`'s constructor. The sizes come in the order of the dictionary's values, which the source leaves unspecified. Each description table is an ordered list, because the source iterates a dictionary and keeps the last match.
- An empty description pattern. The model uses the standard prefix and suffix test, so an empty pattern matches every name. The Foundation bridging of that Swift version answered false for an empty pattern. No configured pattern is expected to be empty.
- The model's back-reference to its size. Only image compositing uses it.
- `Watches.Equal`: states only that a model equals itself. Equality is defined by suffix, so two different models with the same suffix are also equal.
- The receipt validator (`IAP_CheckInAppPurchases`) is foreign C code. Its reports are calls to `ReceiptValidated`. `ReceiptValidated` and `ProductsResponse` require that every reported identifier belongs to a catalog model, because the source unwraps the lookup by force.
- `Compose.ComposeController.DidSelectItem` requires the tapped index to lie within the current visible list, and `Compose.ComposeController.DidScroll` requires the same of the centre index only while `updateSelectedModel` is set; when the flag is clear the scroll is ignored before any indexing. The source indexes the recomputed list directly, and that list can shrink without a carousel reload, for example after a restore rewrites the receipts without a transaction batch. A tap, or a scroll while the flag is set, then stops the app with an out-of-range index; the model does not represent that crash.
- Strings compare character by character, by code point. Swift's `String` equality, `hasPrefix`, `hasSuffix` and dictionary keys compare by Unicode canonical equivalence, so two differently composed spellings of the same text are equal in the app and different in the model. This affects `Matches`, `IndexOfSuffix`, `FirstWithIdentifier`, `IsActivated` and `Lookup`; the configured names, identifiers and keys are plain ASCII, where the two agree.
- `request(_:didFailWithError:)` does nothing, so there is nothing to model.
- Removing the transaction and change observers on deinitialisation.
- Carousel geometry. The item at the centre of the carousel is a parameter (`centerIndex`). The layout, item sizes and image scale set in `viewDidLoad` are not modelled, nor are the collection view's data source and cells.
- Clearing the collection view's selection in `viewWillAppear`, the navigation bar style, the colour picker popover and its dismissal, and the restore alert itself. Only the alert's OK action is modelled.
- The photo library. The authorization status, whether the authorization-error screen is on top, the fetch result (as its count) and the change details are parameters. The fetch's media type and its newest-first order are carried out by the library and are not modelled.
- The main-queue dispatch of callbacks. Every callback is modelled as running to completion on its own. The debug `print` of the change details in `photoLibraryDidChange` is console output only and is left out.
- The picker, the authorization-error and no-screenshots screens, the custom paged flow layout, the navigation animations and the app delegate.
