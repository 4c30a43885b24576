/**
 * Store bookkeeping: what the store keeper asks of the payment queue, the
 * store and the receipt validator, and how their answers are written into
 * the catalog's models.
 */
module StoreKeeper {
  import opened Options
  import opened Watches

  /** The state of a payment transaction reported by the payment queue. */
  datatype TransactionState = Purchasing | Purchased | Failed | Restored | Deferred

  /** A payment for a product. */
  datatype Payment = Payment(product: Product, quantity: nat)

  /** Requests to the platform: the payment queue, the store, and the receipt validator. */
  datatype StoreCommand =
    | AddTransactionObserver
    | RequestProducts(requested: set<string>)
    | CheckInAppPurchases(checked: seq<string>)
    | RefreshReceipt
    | AddPayment(payment: Payment)
    | FinishTransaction(index: nat)

  /** A transaction that has reached a final state, which the observer finishes. */
  predicate IsFinal(state: TransactionState) {
    state.Failed? || state.Purchased? || state.Restored?
  }

  /** A transaction after which the receipt holds a new or restored purchase. */
  predicate ChangesReceipt(state: TransactionState) {
    state.Purchased? || state.Restored?
  }

  /** A FinishTransaction command for each transaction of the batch in a final state, in batch order. */
  function Finishes(transactions: seq<TransactionState>): (commands: seq<StoreCommand>)
    ensures forall c :: c in commands ==> c.FinishTransaction?
    ensures forall k: nat :: FinishTransaction(k) in commands <==> k < |transactions| && IsFinal(transactions[k])
    ensures forall a, b :: 0 <= a < b < |commands| ==> commands[a].index < commands[b].index
    ensures forall c :: c in commands ==> c.index < |transactions|
  {
    if transactions == [] then []
    else
      var front := transactions[..|transactions| - 1];
      assert forall k :: 0 <= k < |front| ==> front[k] == transactions[k];
      Finishes(front) + if IsFinal(transactions[|transactions| - 1]) then [FinishTransaction(|transactions| - 1)] else []
  }

  /**
   * The commands the transaction observer issues for one batch: the
   * transactions in a final state are finished, in order, and the receipt is
   * checked once, last, when some transaction was purchased or restored.
   */
  function BatchCommands(transactions: seq<TransactionState>, checked: seq<string>): (commands: seq<StoreCommand>)
    ensures forall k: nat :: FinishTransaction(k) in commands <==> k < |transactions| && IsFinal(transactions[k])
    ensures (exists c :: c in commands && c.CheckInAppPurchases?) <==>
              exists i :: 0 <= i < |transactions| && ChangesReceipt(transactions[i])
    ensures forall k :: 0 <= k < |commands| && commands[k].CheckInAppPurchases? ==>
              k == |commands| - 1 && commands[k] == CheckInAppPurchases(checked)
    ensures forall c :: c in commands ==> c.FinishTransaction? || c == CheckInAppPurchases(checked)
    ensures forall a, b :: 0 <= a < b < |commands| && commands[b].FinishTransaction? ==>
              commands[a].FinishTransaction? && commands[a].index < commands[b].index
  {
    var finishes := Finishes(transactions);
    if exists i :: 0 <= i < |transactions| && ChangesReceipt(transactions[i]) then
      var commands := finishes + [CheckInAppPurchases(checked)];
      assert commands[|finishes|] == CheckInAppPurchases(checked);
      assert forall k :: 0 <= k < |finishes| ==> commands[k] == finishes[k] && finishes[k] in finishes;
      assert forall c :: c in commands ==> c in finishes || c == CheckInAppPurchases(checked);
      commands
    else
      finishes
  }

  /** The last product of the response with the given identifier. */
  function LastProductWith(products: seq<Product>, productIdentifier: string): (r: Option<Product>)
    ensures r.Some? ==> r.value in products && r.value.productIdentifier == productIdentifier
    ensures r.None? <==> forall p :: p in products ==> p.productIdentifier != productIdentifier
    ensures r.Some? ==> (exists k :: 0 <= k < |products| && products[k] == r.value &&
                          forall j :: k < j < |products| ==> products[j].productIdentifier != productIdentifier)
  {
    if products == [] then None
    else if products[|products| - 1].productIdentifier == productIdentifier then Some(products[|products| - 1])
    else
      var front := products[..|products| - 1];
      assert products == front + [products[|products| - 1]];
      LastProductWith(front, productIdentifier)
  }

  /**
   * The product a catalog model holds after a products response: the
   * response's last product for its identifier, when the model is the one
   * the identifier resolves to; otherwise the product it held before.
   */
  function ProductAfterResponse(catalog: seq<WatchModel>, products: seq<Product>, m: WatchModel,
                                before: Option<Product>): Option<Product>
  {
    if m.productIdentifier.Some? && FirstWithIdentifier(catalog, m.productIdentifier.value) == Some(m) &&
       LastProductWith(products, m.productIdentifier.value).Some?
    then LastProductWith(products, m.productIdentifier.value)
    else before
  }

  /** One more product in the response changes only the product of the model its identifier resolves to. */
  lemma ProductAfterResponseStep(catalog: seq<WatchModel>, products: seq<Product>, product: Product,
                                 target: WatchModel, m: WatchModel, before: Option<Product>)
    requires FirstWithIdentifier(catalog, product.productIdentifier) == Some(target)
    ensures ProductAfterResponse(catalog, products + [product], m, before) ==
            if m == target then Some(product) else ProductAfterResponse(catalog, products, m, before)
  {
  }

  /** Submits a purchase for the given product: one payment, of quantity 1. */
  function CreatePurchase(product: Product): (command: StoreCommand)
    ensures command.AddPayment? && command.payment.product == product && command.payment.quantity == 1
  {
    AddPayment(Payment(product, 1))
  }

  /** Asks the receipt validator to check the receipt again. */
  function RestorePurchases(): (command: StoreCommand)
    ensures command == RefreshReceipt
  {
    RefreshReceipt
  }

  /** Keeps the catalog's products and receipts in step with the store. */
  class StoreKeeper {
    const manager: WatchManager

    constructor (manager: WatchManager)
      ensures this.manager == manager
    {
      this.manager := manager;
    }

    /** Validates the set of purchases with the store: one request for every identifier of the catalog. */
    method CheckPurchases() returns (command: StoreCommand)
      ensures command.RequestProducts?
      ensures forall id :: id in command.requested <==>
                exists m :: m in manager.catalog && m.productIdentifier == Some(id)
    {
      var ids := manager.ProductIdentifiers();
      command := RequestProducts(set id | id in ids);
    }

    /** Validates the receipt for every identifier of the catalog, hidden models included. */
    method CheckReceipt() returns (command: StoreCommand)
      ensures command == CheckInAppPurchases(Identifiers(manager.catalog))
    {
      var ids := manager.ProductIdentifiers();
      command := CheckInAppPurchases(ids);
    }

    /** Start-up: observe the payment queue, request the products, and check the receipt. */
    method Start() returns (commands: seq<StoreCommand>)
      ensures |commands| == 3 && commands[0] == AddTransactionObserver
      ensures commands[1].RequestProducts?
      ensures forall id :: id in commands[1].requested <==> id in Identifiers(manager.catalog)
      ensures commands[2] == CheckInAppPurchases(Identifiers(manager.catalog))
    {
      var request := CheckPurchases();
      var check := CheckReceipt();
      commands := [AddTransactionObserver, request, check];
    }

    /** A finished request (products or receipt refresh) is followed by a receipt check. */
    method RequestDidFinish() returns (commands: seq<StoreCommand>)
      ensures commands == [CheckInAppPurchases(Identifiers(manager.catalog))]
    {
      var check := CheckReceipt();
      commands := [check];
    }

    /**
     * The transaction observer: finishes every transaction of the batch in a
     * final state, and checks the receipt once after the batch when some
     * transaction was purchased or restored.
     */
    method PaymentQueueUpdated(transactions: seq<TransactionState>) returns (commands: seq<StoreCommand>)
      ensures commands == BatchCommands(transactions, Identifiers(manager.catalog))
    {
      var updateReceipt := false;
      commands := [];
      for i := 0 to |transactions|
        invariant commands == Finishes(transactions[..i])
        invariant updateReceipt <==> exists j :: 0 <= j < i && ChangesReceipt(transactions[j])
      {
        assert transactions[..i + 1][..i] == transactions[..i];
        match transactions[i]
        case Purchasing | Deferred =>
        case Failed =>
          commands := commands + [FinishTransaction(i)];
        case Purchased | Restored =>
          updateReceipt := true;
          commands := commands + [FinishTransaction(i)];
      }
      assert transactions[..|transactions|] == transactions;
      if updateReceipt {
        var check := CheckReceipt();
        commands := commands + [check];
      }
    }

    /**
     * A products response: each product returned is attached to the model its
     * identifier resolves to; models not in the response keep their product.
     * The store answers only for identifiers it was asked about.
     */
    method ProductsResponse(products: seq<Product>)
      requires forall p :: p in products ==> p.productIdentifier in Identifiers(manager.catalog)
      modifies manager.catalog
      ensures forall m :: m in manager.catalog ==>
                m.product == ProductAfterResponse(manager.catalog, products, m, old(m.product))
      ensures forall m :: m in manager.catalog ==> m.receipt == old(m.receipt)
    {
      for i := 0 to |products|
        invariant forall m :: m in manager.catalog ==> m.product == ProductAfterResponse(manager.catalog, products[..i], m, old(m.product))
        invariant forall m :: m in manager.catalog ==> m.receipt == old(m.receipt)
      {
        var product := products[i];
        IdentifierFound(manager.catalog, product.productIdentifier);
        var model := manager.ModelForProductIdentifier(product.productIdentifier);
        model.value.product := Some(product);
        assert products[..i + 1] == products[..i] + [product];
        forall m | m in manager.catalog
          ensures ProductAfterResponse(manager.catalog, products[..i + 1], m, old(m.product)) ==
                  if m == model.value then Some(product)
                  else ProductAfterResponse(manager.catalog, products[..i], m, old(m.product))
        {
          ProductAfterResponseStep(manager.catalog, products[..i], product, model.value, m, old(m.product));
        }
      }
      assert products[..|products|] == products;
    }

    /**
     * The receipt validator's report for one identifier: the model the
     * identifier resolves to gets the purchase record when it is present, and
     * none otherwise. The validator reports only identifiers it was asked about.
     */
    method ReceiptValidated(productIdentifier: string, isPresent: bool, purchaseInfo: Option<PurchaseInfo>)
      requires productIdentifier in Identifiers(manager.catalog)
      modifies manager.catalog
      ensures var model := FirstWithIdentifier(manager.catalog, productIdentifier).value;
              && model.receipt == (if isPresent then purchaseInfo else None)
              && forall m :: m in manager.catalog && m != model ==> m.receipt == old(m.receipt)
      ensures forall m :: m in manager.catalog ==> m.product == old(m.product)
    {
      IdentifierFound(manager.catalog, productIdentifier);
      var model := manager.ModelForProductIdentifier(productIdentifier);
      if isPresent {
        model.value.receipt := purchaseInfo;
      } else {
        model.value.receipt := None;
      }
    }
  }
}
