/**
 * The compose screen: a carousel of the visible models of one watch size,
 * the selected model and its persistence in the user defaults, and the
 * share/buy and restore-purchases buttons that follow the selected model's
 * ownership.
 */
module Compose {
  import opened Options
  import opened Watches
  import opened StoreKeeper

  /** The persistent user defaults: string values and boolean flags, by key. */
  class UserDefaults {
    var strings: map<string, string>
    var flags: map<string, bool>

    constructor (strings: map<string, string>, flags: map<string, bool>)
      ensures this.strings == strings && this.flags == flags
    {
      this.strings := strings;
      this.flags := flags;
    }
  }

  /** A colour by its components. */
  datatype Color = Color(red: real, green: real, blue: real, alpha: real)

  const White: Color := Color(1.0, 1.0, 1.0, 1.0)

  /** What the screen's two buttons show: the share/buy button's title and state, and whether restore is hidden. */
  datatype Buttons = Buttons(shareBuyTitle: string, shareBuyEnabled: bool, restoreHidden: bool)

  /** What the screen asks of the platform and of the store keeper. */
  datatype Effect =
    | OpenShareSheet(model: WatchModel, background: Color)
    | Store(command: StoreCommand)
    | ScrollTo(index: nat)
    | ReloadData
    | SetCarouselColor(color: Color)

  const SelectedModelKeyPrefix: string := "lastSelectedModel"

  /** The defaults key under which the selected model of the size with this filename prefix is kept. */
  function SelectedModelKey(filenamePrefix: string): string {
    SelectedModelKeyPrefix + filenamePrefix
  }

  /** Different sizes keep their selections under different keys. */
  lemma SelectedModelKeyInjective(a: string, b: string)
    ensures SelectedModelKey(a) == SelectedModelKey(b) ==> a == b
  {
    if SelectedModelKey(a) == SelectedModelKey(b) {
      assert a == SelectedModelKey(a)[|SelectedModelKeyPrefix|..];
    }
  }

  /**
   * The model selected on load: the visible model with the stored suffix
   * when there is one, otherwise the first visible model, and none when no
   * model is visible.
   */
  function SelectionFor(models: seq<WatchModel>, stored: Option<string>): (r: Option<WatchModel>)
    ensures r.None? <==> models == []
    ensures r.Some? ==> r.value in models
    ensures stored.Some? && (exists m :: m in models && m.filenameSuffix == stored.value) ==>
              r.Some? && r.value.filenameSuffix == stored.value
    ensures (stored.None? || forall m :: m in models ==> m.filenameSuffix != stored.value) && models != [] ==>
              r == Some(models[0])
  {
    if stored.Some? && IndexOfSuffix(models, stored.value).Some? then
      Some(models[IndexOfSuffix(models, stored.value).value])
    else if models == [] then None
    else Some(models[0])
  }

  /** The user's strings after saving the selection: the selected suffix under the size's key, nothing when none is selected. */
  function SavedSelection(strings: map<string, string>, filenamePrefix: string, selected: Option<WatchModel>): (saved: map<string, string>)
    ensures selected.None? ==> saved == strings
    ensures selected.Some? ==> Lookup(saved, SelectedModelKey(filenamePrefix)) == Some(selected.value.filenameSuffix)
    ensures forall key :: key != SelectedModelKey(filenamePrefix) ==> Lookup(saved, key) == Lookup(strings, key)
  {
    if selected.Some? then strings[SelectedModelKey(filenamePrefix) := selected.value.filenameSuffix]
    else strings
  }

  /** Saving a visible model and loading again, with the same visible models, selects a model equal to it. */
  lemma SaveThenLoad(models: seq<WatchModel>, strings: map<string, string>, filenamePrefix: string, m: WatchModel)
    requires m in models
    ensures var r := SelectionFor(models, Lookup(SavedSelection(strings, filenamePrefix, Some(m)), SelectedModelKey(filenamePrefix)));
            r.Some? && Equal(r.value, m)
  {
  }

  /** Saving the selection of one size leaves what every other size loads unchanged. */
  lemma SaveKeepsOtherSizes(models: seq<WatchModel>, strings: map<string, string>, filenamePrefix: string,
                            selected: Option<WatchModel>, otherPrefix: string)
    requires otherPrefix != filenamePrefix
    ensures SelectionFor(models, Lookup(SavedSelection(strings, filenamePrefix, selected), SelectedModelKey(otherPrefix))) ==
            SelectionFor(models, Lookup(strings, SelectedModelKey(otherPrefix)))
  {
    SelectedModelKeyInjective(filenamePrefix, otherPrefix);
  }

  /** The buttons for a selected model, by its ownership. */
  function ButtonsFor(m: WatchModel, defaults: map<string, bool>): (b: Buttons)
    reads m
    ensures b.shareBuyEnabled <==> m.CurrentOwnership(defaults) != Unavailable
    ensures b.restoreHidden <==> m.CurrentOwnership(defaults) == Free || m.CurrentOwnership(defaults) == Owned
    ensures m.CurrentOwnership(defaults) == Free || m.CurrentOwnership(defaults) == Owned ==> b.shareBuyTitle == "Share"
    ensures m.CurrentOwnership(defaults) == ForSale ==>
              m.product.Some? && b.shareBuyTitle == "Buy - " + m.product.value.formattedPrice
    ensures m.CurrentOwnership(defaults) == Unavailable ==> b.shareBuyTitle == "Unavailable"
  {
    match m.CurrentOwnership(defaults)
    case Free | Owned => Buttons("Share", true, true)
    case ForSale => Buttons("Buy - " + m.product.value.formattedPrice, true, false)
    case Unavailable => Buttons("Unavailable", false, false)
  }

  /**
   * The share/buy button's action on a model: share a free or owned model,
   * buy one payment of a model for sale, nothing for an unavailable one.
   */
  function ShareOrBuyEffects(m: WatchModel, defaults: map<string, bool>, background: Color): (effects: seq<Effect>)
    reads m
    ensures |effects| <= 1
    ensures effects == [] <==> m.CurrentOwnership(defaults) == Unavailable
    ensures effects == [OpenShareSheet(m, background)] <==>
              m.CurrentOwnership(defaults) == Free || m.CurrentOwnership(defaults) == Owned
    ensures m.CurrentOwnership(defaults) == ForSale ==>
              m.product.Some? && effects == [Store(AddPayment(Payment(m.product.value, 1)))]
  {
    match m.CurrentOwnership(defaults)
    case Free | Owned => [OpenShareSheet(m, background)]
    case ForSale => [Store(CreatePurchase(m.product.value))]
    case Unavailable => []
  }

  /** The share/buy button is enabled exactly when pressing it does something. */
  lemma EnabledIffActs(m: WatchModel, defaults: map<string, bool>, background: Color)
    ensures ButtonsFor(m, defaults).shareBuyEnabled <==> ShareOrBuyEffects(m, defaults, background) != []
  {
  }

  /** The selection after a tap: the tapped model, unless it equals the selected one. */
  function TappedSelection(tapped: WatchModel, selected: Option<WatchModel>): (r: Option<WatchModel>)
    ensures r.Some? && Equal(r.value, tapped)
    ensures r != selected ==> r == Some(tapped)
    ensures selected.Some? && Equal(tapped, selected.value) ==> r == selected
  {
    if selected.Some? && Equal(tapped, selected.value) then selected else Some(tapped)
  }

  /**
   * The selection after the carousel scrolls: the model in the centre, but
   * only while the user drags, and only when it differs from the selection.
   */
  function ScrolledSelection(update: bool, models: seq<WatchModel>, center: Option<nat>, selected: Option<WatchModel>): (r: Option<WatchModel>)
    requires update && center.Some? ==> center.value < |models|
    ensures r != selected ==> update && center.Some? && r == Some(models[center.value])
    ensures update && center.Some? ==> r.Some? && Equal(r.value, models[center.value])
  {
    if update && center.Some? then TappedSelection(models[center.value], selected) else selected
  }

  /** A batch refreshes the screen exactly when the store keeper finishes some transaction of it. */
  lemma RefreshIffFinished(transactions: seq<TransactionState>)
    ensures (exists i :: 0 <= i < |transactions| && IsFinal(transactions[i])) <==> Finishes(transactions) != []
  {
  }

  /** The compose screen for the size of one screenshot. */
  class ComposeController {
    /** The size of the screenshot being composed, set by the picker. */
    const watchSize: WatchSize
    const defaults: UserDefaults
    /** The model the user has picked, by scrolling or tapping. */
    var selectedModel: Option<WatchModel>
    /** Whether scrolling moves the selection: set when the user drags, cleared by a tap-triggered scroll. */
    var updateSelectedModel: bool
    /** The background colour of the shared image. */
    var backgroundColor: Color
    var buttons: Buttons

    constructor (watchSize: WatchSize, defaults: UserDefaults, buttons: Buttons)
      ensures this.watchSize == watchSize && this.defaults == defaults && this.buttons == buttons
      ensures selectedModel.None? && !updateSelectedModel && backgroundColor == White
    {
      this.watchSize := watchSize;
      this.defaults := defaults;
      this.buttons := buttons;
      selectedModel := None;
      updateSelectedModel := false;
      backgroundColor := White;
    }

    /** The models in the carousel. */
    function Models(): (r: seq<WatchModel>)
      reads watchSize.allModels, defaults
      ensures forall m :: m in r ==> m in watchSize.allModels && m.CurrentOwnership(defaults.flags) != Unavailable
    {
      watchSize.Models(defaults.flags)
    }

    /** Restores the selection saved for this size. */
    method LoadSelectedModel()
      modifies this
      ensures selectedModel == SelectionFor(Models(), Lookup(defaults.strings, SelectedModelKey(watchSize.filenamePrefix)))
      ensures updateSelectedModel == old(updateSelectedModel) && backgroundColor == old(backgroundColor)
      ensures buttons == old(buttons)
    {
      var stored := Lookup(defaults.strings, SelectedModelKey(watchSize.filenamePrefix));
      if stored.Some? {
        var found := watchSize.ModelForFilenameSuffix(stored.value, defaults.flags);
        if found.Some? {
          selectedModel := found;
          return;
        }
      }
      var models := Models();
      selectedModel := if models == [] then None else Some(models[0]);
    }

    /** Records the selected model's suffix under this size's key. */
    method SaveSelectedModel()
      modifies defaults
      ensures defaults.strings == SavedSelection(old(defaults.strings), watchSize.filenamePrefix, selectedModel)
      ensures defaults.flags == old(defaults.flags)
    {
      if selectedModel.Some? {
        defaults.strings := defaults.strings[SelectedModelKey(watchSize.filenamePrefix) := selectedModel.value.filenameSuffix];
      }
    }

    /** Sets the buttons for the selected model; with no selection they stay as they are. */
    method UpdateViewForSelectedModel()
      modifies this
      ensures selectedModel.Some? ==> buttons == ButtonsFor(selectedModel.value, defaults.flags)
      ensures selectedModel.None? ==> buttons == old(buttons)
      ensures selectedModel == old(selectedModel) && updateSelectedModel == old(updateSelectedModel)
      ensures backgroundColor == old(backgroundColor)
    {
      if selectedModel.Some? {
        buttons := ButtonsFor(selectedModel.value, defaults.flags);
      }
    }

    /** Loading the view: observe the payment queue, hide restore, and restore the saved selection. */
    method ViewDidLoad() returns (effects: seq<Effect>)
      modifies this
      ensures effects == [Store(AddTransactionObserver)]
      ensures buttons == old(buttons).(restoreHidden := true)
      ensures selectedModel == SelectionFor(Models(), Lookup(defaults.strings, SelectedModelKey(watchSize.filenamePrefix)))
      ensures updateSelectedModel == old(updateSelectedModel) && backgroundColor == old(backgroundColor)
    {
      effects := [Store(AddTransactionObserver)];
      buttons := buttons.(restoreHidden := true);
      LoadSelectedModel();
    }

    /** Appearing: show the selected model's buttons and centre the first carousel item equal to it. */
    method ViewWillAppear() returns (effects: seq<Effect>)
      modifies this
      ensures selectedModel == old(selectedModel) && updateSelectedModel == old(updateSelectedModel)
      ensures backgroundColor == old(backgroundColor)
      ensures selectedModel.Some? ==> buttons == ButtonsFor(selectedModel.value, defaults.flags)
      ensures selectedModel.None? ==> buttons == old(buttons) && effects == []
      ensures selectedModel.Some? ==>
                var index := IndexOfSuffix(Models(), selectedModel.value.filenameSuffix);
                effects == if index.Some? then [ScrollTo(index.value)] else []
      ensures forall k: nat :: ScrollTo(k) in effects ==>
                selectedModel.Some? && k < |Models()| && Equal(Models()[k], selectedModel.value)
    {
      UpdateViewForSelectedModel();
      effects := [];
      if selectedModel.Some? {
        var index := IndexOfSuffix(Models(), selectedModel.value.filenameSuffix);
        if index.Some? {
          effects := [ScrollTo(index.value)];
        }
      }
    }

    /** Disappearing: save the selection. */
    method ViewWillDisappear()
      modifies defaults
      ensures defaults.strings == SavedSelection(old(defaults.strings), watchSize.filenamePrefix, selectedModel)
      ensures defaults.flags == old(defaults.flags)
    {
      SaveSelectedModel();
    }

    /** The share/buy button: share, buy and disable the button, or nothing, by the selected model's ownership. */
    method ShareOrBuy() returns (effects: seq<Effect>)
      modifies this
      ensures selectedModel == old(selectedModel) && updateSelectedModel == old(updateSelectedModel)
      ensures backgroundColor == old(backgroundColor)
      ensures selectedModel.None? ==> effects == [] && buttons == old(buttons)
      ensures selectedModel.Some? ==>
                effects == ShareOrBuyEffects(selectedModel.value, defaults.flags, backgroundColor)
      ensures selectedModel.Some? && selectedModel.value.CurrentOwnership(defaults.flags) == ForSale ==>
                buttons == old(buttons).(shareBuyEnabled := false)
      ensures selectedModel.Some? && selectedModel.value.CurrentOwnership(defaults.flags) != ForSale ==>
                buttons == old(buttons)
    {
      effects := [];
      if selectedModel.Some? {
        var model := selectedModel.value;
        match model.CurrentOwnership(defaults.flags)
        case Free | Owned =>
          effects := [OpenShareSheet(model, backgroundColor)];
        case ForSale =>
          effects := [Store(CreatePurchase(model.product.value))];
          buttons := buttons.(shareBuyEnabled := false);
        case Unavailable =>
      }
    }

    /** The restore alert's OK: ask the store keeper to refresh the receipt. */
    method RestorePurchasesConfirmed() returns (effects: seq<Effect>)
      ensures effects == [Store(RefreshReceipt)]
    {
      effects := [Store(RestorePurchases())];
    }

    /**
     * A tap on the carousel item at `index`. Tapping the selected model
     * shares it when it is free or owned, and never buys; tapping another
     * model selects it. An item away from the centre is scrolled to, with
     * selection-by-scrolling switched off.
     */
    method DidSelectItem(index: nat, centerIndex: Option<nat>) returns (effects: seq<Effect>)
      requires index < |Models()|
      modifies this
      ensures var tapped := old(Models())[index];
              var same := old(selectedModel).Some? && Equal(tapped, old(selectedModel).value);
              && selectedModel == TappedSelection(tapped, old(selectedModel))
              && (same ==> buttons == old(buttons))
              && (!same ==> buttons == ButtonsFor(tapped, defaults.flags))
              && (var shares := same && (tapped.CurrentOwnership(defaults.flags) == Free ||
                                         tapped.CurrentOwnership(defaults.flags) == Owned);
                  var scrolls := centerIndex.Some? && centerIndex.value != index;
                  && effects == (if shares then [OpenShareSheet(old(selectedModel).value, backgroundColor)] else []) +
                                (if scrolls then [ScrollTo(index)] else [])
                  && updateSelectedModel == (if scrolls then false else old(updateSelectedModel)))
      ensures forall e :: e in effects ==> !e.Store?
      ensures backgroundColor == old(backgroundColor)
    {
      var tapped := Models()[index];
      effects := [];
      if selectedModel.Some? && Equal(tapped, selectedModel.value) {
        match tapped.CurrentOwnership(defaults.flags)
        case Free | Owned =>
          effects := [OpenShareSheet(selectedModel.value, backgroundColor)];
        case ForSale | Unavailable =>
      } else {
        selectedModel := Some(tapped);
        UpdateViewForSelectedModel();
      }
      if centerIndex.Some? && index != centerIndex.value {
        updateSelectedModel := false;
        effects := effects + [ScrollTo(index)];
      }
    }

    /** The user starts dragging the carousel: scrolling moves the selection again. */
    method WillBeginDragging()
      modifies this
      ensures updateSelectedModel
      ensures selectedModel == old(selectedModel) && buttons == old(buttons) && backgroundColor == old(backgroundColor)
    {
      updateSelectedModel := true;
    }

    /** The carousel scrolled, with `centerIndex` the item now in the centre, if any. */
    method DidScroll(centerIndex: Option<nat>)
      requires updateSelectedModel && centerIndex.Some? ==> centerIndex.value < |Models()|
      modifies this
      ensures selectedModel == ScrolledSelection(old(updateSelectedModel), old(Models()), centerIndex, old(selectedModel))
      ensures selectedModel != old(selectedModel) ==> buttons == ButtonsFor(selectedModel.value, defaults.flags)
      ensures selectedModel == old(selectedModel) ==> buttons == old(buttons)
      ensures updateSelectedModel == old(updateSelectedModel) && backgroundColor == old(backgroundColor)
    {
      if !updateSelectedModel {
        return;
      }
      if centerIndex.Some? {
        var model := Models()[centerIndex.value];
        if !(selectedModel.Some? && Equal(model, selectedModel.value)) {
          selectedModel := Some(model);
          UpdateViewForSelectedModel();
        }
      }
    }

    /** A new background colour for the shared image, shown on the carousel too. */
    method ColorSelectionChanged(color: Color) returns (effects: seq<Effect>)
      modifies this
      ensures backgroundColor == color && effects == [SetCarouselColor(color)]
      ensures selectedModel == old(selectedModel) && updateSelectedModel == old(updateSelectedModel)
      ensures buttons == old(buttons)
    {
      backgroundColor := color;
      effects := [SetCarouselColor(color)];
    }

    /**
     * The screen's own transaction observer: when some transaction of the
     * batch reached a final state, refresh the buttons and reload the carousel.
     */
    method PaymentQueueUpdated(transactions: seq<TransactionState>) returns (effects: seq<Effect>)
      modifies this
      ensures var refresh := exists i :: 0 <= i < |transactions| && IsFinal(transactions[i]);
              && effects == (if refresh then [ReloadData] else [])
              && (refresh && selectedModel.Some? ==> buttons == ButtonsFor(selectedModel.value, defaults.flags))
              && (!refresh || selectedModel.None? ==> buttons == old(buttons))
      ensures selectedModel == old(selectedModel) && updateSelectedModel == old(updateSelectedModel)
      ensures backgroundColor == old(backgroundColor)
    {
      var refresh := false;
      for i := 0 to |transactions|
        invariant refresh <==> exists j :: 0 <= j < i && IsFinal(transactions[j])
      {
        match transactions[i]
        case Failed | Purchased | Restored =>
          refresh := true;
        case Purchasing | Deferred =>
      }
      effects := [];
      if refresh {
        UpdateViewForSelectedModel();
        effects := [ReloadData];
      }
    }
  }
}
