/**
 * The watch catalog: sizes of watch, the models in each size, how a model's
 * descriptions are picked from the description tables, and how its ownership
 * follows from its store state and the user's activation flags.
 */
module Watches {
  import opened Options

  /** A size in pixels; the configuration holds whole numbers. */
  datatype Size = Size(width: nat, height: nat)

  /** Ownership status of a watch model. */
  datatype Ownership = Free | Owned | ForSale | Unavailable

  /**
   * A store product, as far as the app uses it: its identifier, and its price
   * as the currency formatter renders it for the product's locale.
   */
  datatype Product = Product(productIdentifier: string, formattedPrice: string)

  /** The purchase record the receipt validation reports for an identifier. */
  type PurchaseInfo = map<string, string>

  /** A description table: (pattern, human-readable text), in table order. */
  type DescriptionTable = seq<(string, string)>

  /** The three description tables of the configuration. */
  datatype Descriptions = Descriptions(models: DescriptionTable, cases: DescriptionTable, bands: DescriptionTable)

  /** One size entry of the configuration. */
  datatype SizeInfo = SizeInfo(
    filenamePrefix: string,
    screenshotSize: Size,
    imageSize: Size,
    modelFilenames: seq<string>,
    productIdentifiers: map<string, string>,
    activationKeys: map<string, string>)

  /** Model and case descriptions match the filename suffix by prefix, bands by suffix. */
  datatype MatchKind = ByPrefix | BySuffix

  predicate HasPrefix(s: string, prefix: string) {
    |prefix| <= |s| && s[..|prefix|] == prefix
  }

  predicate HasSuffix(s: string, suffix: string) {
    |suffix| <= |s| && s[|s| - |suffix|..] == suffix
  }

  predicate Matches(kind: MatchKind, pattern: string, name: string) {
    match kind
    case ByPrefix => HasPrefix(name, pattern)
    case BySuffix => HasSuffix(name, pattern)
  }

  /** The description a table gives a name: the text of the last matching entry, or "" if none matches. */
  function Describe(table: DescriptionTable, kind: MatchKind, name: string): string {
    if table == [] then ""
    else if Matches(kind, table[|table| - 1].0, name) then table[|table| - 1].1
    else Describe(table[..|table| - 1], kind, name)
  }

  /** The entry at `i` matches and no later entry does: its text is the description. */
  lemma {:induction false} DescribeLastMatch(table: DescriptionTable, kind: MatchKind, name: string, i: nat)
    requires i < |table| && Matches(kind, table[i].0, name)
    requires forall j :: i < j < |table| ==> !Matches(kind, table[j].0, name)
    ensures Describe(table, kind, name) == table[i].1
  {
    if i < |table| - 1 {
      var front := table[..|table| - 1];
      assert front[i] == table[i];
      DescribeLastMatch(front, kind, name, i);
    }
  }

  /** No entry matches: the description is empty. */
  lemma {:induction false} DescribeNoMatch(table: DescriptionTable, kind: MatchKind, name: string)
    requires forall i :: 0 <= i < |table| ==> !Matches(kind, table[i].0, name)
    ensures Describe(table, kind, name) == ""
  {
    if table != [] {
      var front := table[..|table| - 1];
      assert forall k :: 0 <= k < |front| ==> front[k] == table[k];
      DescribeNoMatch(front, kind, name);
    }
  }

  /** The matching loop of the model initialiser: scan the table, keep the last match. */
  method ChooseDescription(table: DescriptionTable, kind: MatchKind, name: string) returns (d: string)
    ensures d == Describe(table, kind, name)
  {
    d := "";
    for i := 0 to |table|
      invariant d == Describe(table[..i], kind, name)
    {
      assert table[..i + 1][..i] == table[..i];
      if Matches(kind, table[i].0, name) {
        d := table[i].1;
      }
    }
    assert table[..|table|] == table;
  }

  /** `NSUserDefaults.boolForKey` on an optional activation key: a missing flag reads as false. */
  predicate IsActivated(defaults: map<string, bool>, activationKey: Option<string>) {
    activationKey.Some? && activationKey.value in defaults && defaults[activationKey.value]
  }

  /** A single watch model, at a specific size. */
  class WatchModel {
    const filenameSuffix: string
    const productIdentifier: Option<string>
    const activationKey: Option<string>
    const modelDescription: string
    const caseDescription: string
    const bandDescription: string

    /** Set once products have been validated with the store. */
    var product: Option<Product>
    /** Set once the receipt has been checked. */
    var receipt: Option<PurchaseInfo>

    /** The model's fixed fields: the given suffix and identifiers, and the descriptions the tables give the suffix. */
    predicate BuiltFrom(suffix: string, productIdentifier: Option<string>, activationKey: Option<string>,
                        descriptions: Descriptions)
    {
      && filenameSuffix == suffix
      && this.productIdentifier == productIdentifier
      && this.activationKey == activationKey
      && modelDescription == Describe(descriptions.models, ByPrefix, suffix)
      && caseDescription == Describe(descriptions.cases, ByPrefix, suffix)
      && bandDescription == Describe(descriptions.bands, BySuffix, suffix)
    }

    constructor (filenameSuffix: string, productIdentifier: Option<string>, activationKey: Option<string>,
                 descriptions: Descriptions)
      ensures BuiltFrom(filenameSuffix, productIdentifier, activationKey, descriptions)
      ensures product.None? && receipt.None?
    {
      this.filenameSuffix := filenameSuffix;
      this.productIdentifier := productIdentifier;
      this.activationKey := activationKey;
      var modelDescription := ChooseDescription(descriptions.models, ByPrefix, filenameSuffix);
      var caseDescription := ChooseDescription(descriptions.cases, ByPrefix, filenameSuffix);
      var bandDescription := ChooseDescription(descriptions.bands, BySuffix, filenameSuffix);
      this.modelDescription := modelDescription;
      this.caseDescription := caseDescription;
      this.bandDescription := bandDescription;
      product := None;
      receipt := None;
    }

    /**
     * The user's ownership of this model. A model with neither a product
     * identifier nor an activation key is free; otherwise a set activation
     * flag, then a receipt, then a product decide, in that order.
     */
    function CurrentOwnership(defaults: map<string, bool>): (o: Ownership)
      reads this
      ensures o == Free <==> productIdentifier.None? && activationKey.None?
      ensures o == Owned <==> (productIdentifier.Some? || activationKey.Some?) &&
                              (IsActivated(defaults, activationKey) || receipt.Some?)
      ensures o == ForSale <==> (productIdentifier.Some? || activationKey.Some?) &&
                                !IsActivated(defaults, activationKey) && receipt.None? && product.Some?
      ensures o == Unavailable <==> (productIdentifier.Some? || activationKey.Some?) &&
                                    !IsActivated(defaults, activationKey) && receipt.None? && product.None?
    {
      if productIdentifier.None? && activationKey.None? then Free
      else if activationKey.Some? && IsActivated(defaults, activationKey) then Owned
      else if receipt.Some? then Owned
      else if product.Some? then ForSale
      else Unavailable
    }
  }

  /** Swift's `==` on watch models: models are equal when their filename suffixes are. */
  function Equal(lhs: WatchModel, rhs: WatchModel): (same: bool)
    ensures lhs == rhs ==> same
  {
    lhs.filenameSuffix == rhs.filenameSuffix
  }

  /** The models of `ms` that are not unavailable, in their order. */
  function Visible(ms: seq<WatchModel>, defaults: map<string, bool>): (r: seq<WatchModel>)
    reads ms
    ensures |r| <= |ms|
    ensures forall m :: m in r ==> m in ms && m.CurrentOwnership(defaults) != Unavailable
    ensures forall m :: m in ms && m.CurrentOwnership(defaults) != Unavailable ==> m in r
  {
    if ms == [] then []
    else if ms[0].CurrentOwnership(defaults) != Unavailable then [ms[0]] + Visible(ms[1..], defaults)
    else Visible(ms[1..], defaults)
  }

  /** Filtering keeps order: the visible models of a concatenation are those of each part, concatenated. */
  lemma {:induction false} VisibleAppend(a: seq<WatchModel>, b: seq<WatchModel>, defaults: map<string, bool>)
    ensures Visible(a + b, defaults) == Visible(a, defaults) + Visible(b, defaults)
  {
    if a == [] {
      assert a + b == b;
    } else {
      assert (a + b)[0] == a[0];
      assert (a + b)[1..] == a[1..] + b;
      VisibleAppend(a[1..], b, defaults);
    }
  }

  /** The first visible model is the first model of the list that is not unavailable. */
  lemma {:induction false} VisibleFirst(ms: seq<WatchModel>, defaults: map<string, bool>, k: nat)
    requires k < |ms| && ms[k].CurrentOwnership(defaults) != Unavailable
    requires forall j :: 0 <= j < k ==> ms[j].CurrentOwnership(defaults) == Unavailable
    ensures Visible(ms, defaults) != [] && Visible(ms, defaults)[0] == ms[k]
  {
    if k > 0 {
      VisibleFirst(ms[1..], defaults, k - 1);
    }
  }

  /** The first index of a model with the given filename suffix. */
  function IndexOfSuffix(ms: seq<WatchModel>, filenameSuffix: string): (r: Option<nat>)
    ensures r.Some? ==> r.value < |ms| && ms[r.value].filenameSuffix == filenameSuffix
    ensures r.Some? ==> forall j :: 0 <= j < r.value ==> ms[j].filenameSuffix != filenameSuffix
    ensures r.None? <==> forall m :: m in ms ==> m.filenameSuffix != filenameSuffix
  {
    if ms == [] then None
    else if ms[0].filenameSuffix == filenameSuffix then Some(0)
    else match IndexOfSuffix(ms[1..], filenameSuffix)
      case Some(i) => Some(i + 1)
      case None => None
  }

  /** The first model in `ms` with the given product identifier. */
  function FirstWithIdentifier(ms: seq<WatchModel>, productIdentifier: string): (r: Option<WatchModel>)
    ensures r.Some? <==> exists k :: 0 <= k < |ms| && ms[k].productIdentifier == Some(productIdentifier)
    ensures r.Some? ==> r.value.productIdentifier == Some(productIdentifier)
    ensures r.Some? ==> exists k :: 0 <= k < |ms| && ms[k] == r.value &&
                          forall j :: 0 <= j < k ==> ms[j].productIdentifier != Some(productIdentifier)
  {
    if ms == [] then None
    else if ms[0].productIdentifier == Some(productIdentifier) then Some(ms[0])
    else
      var r := FirstWithIdentifier(ms[1..], productIdentifier);
      assert forall k :: 1 <= k < |ms| ==> ms[k] == ms[1..][k - 1];
      r
  }

  /** Models without the identifier in front do not change which model is found. */
  lemma {:induction false} FirstWithIdentifierSkip(a: seq<WatchModel>, b: seq<WatchModel>, productIdentifier: string)
    requires forall m :: m in a ==> m.productIdentifier != Some(productIdentifier)
    ensures FirstWithIdentifier(a + b, productIdentifier) == FirstWithIdentifier(b, productIdentifier)
  {
    if a != [] {
      assert (a + b)[0] == a[0];
      assert (a + b)[1..] == a[1..] + b;
      FirstWithIdentifierSkip(a[1..], b, productIdentifier);
    } else {
      assert a + b == b;
    }
  }

  /** The product identifiers of `ms`, in order, skipping models without one. */
  function Identifiers(ms: seq<WatchModel>): (ids: seq<string>)
    ensures forall id :: id in ids <==> exists k :: 0 <= k < |ms| && ms[k].productIdentifier == Some(id)
  {
    if ms == [] then []
    else
      var last := ms[|ms| - 1];
      var front := ms[..|ms| - 1];
      assert forall k :: 0 <= k < |ms| - 1 ==> ms[k] == front[k];
      Identifiers(front) + (if last.productIdentifier.Some? then [last.productIdentifier.value] else [])
  }

  /** Appending a model appends its identifier, if it has one. */
  lemma IdentifiersSnoc(ms: seq<WatchModel>, m: WatchModel)
    ensures Identifiers(ms + [m]) == Identifiers(ms) + (if m.productIdentifier.Some? then [m.productIdentifier.value] else [])
  {
    assert (ms + [m])[..|ms|] == ms;
  }

  /** An identifier is among the catalog's identifiers exactly when a model with it can be found. */
  lemma IdentifierFound(ms: seq<WatchModel>, productIdentifier: string)
    ensures productIdentifier in Identifiers(ms) <==> FirstWithIdentifier(ms, productIdentifier).Some?
  {
  }

  /** `m` is the model a size entry builds for one of its filenames: identifiers looked up by that filename. */
  predicate BuiltForEntry(m: WatchModel, info: SizeInfo, filename: string, descriptions: Descriptions) {
    m.BuiltFrom(filename, Lookup(info.productIdentifiers, filename), Lookup(info.activationKeys, filename), descriptions)
  }

  /** A model just built for a filename of a size entry: no product or receipt yet. */
  predicate NewlyBuilt(m: WatchModel, info: SizeInfo, filename: string, descriptions: Descriptions)
    reads m
  {
    BuiltForEntry(m, info, filename, descriptions) && m.product.None? && m.receipt.None?
  }

  /** A collection of watch models all of the same size. */
  class WatchSize {
    const filenamePrefix: string
    const screenshotSize: Size
    const imageSize: Size
    /** All models of this size, including those unavailable for sale (`_models`). */
    const allModels: seq<WatchModel>

    /** The size's fixed fields are those of its configuration entry, one model per filename, in order. */
    predicate Configured(info: SizeInfo, descriptions: Descriptions) {
      && filenamePrefix == info.filenamePrefix
      && screenshotSize == info.screenshotSize
      && imageSize == info.imageSize
      && |allModels| == |info.modelFilenames|
      && forall i :: 0 <= i < |allModels| ==> BuiltForEntry(allModels[i], info, info.modelFilenames[i], descriptions)
    }

    constructor (info: SizeInfo, descriptions: Descriptions)
      ensures Configured(info, descriptions)
      ensures forall k :: 0 <= k < |allModels| ==> allModels[k].product.None? && allModels[k].receipt.None?
    {
      filenamePrefix := info.filenamePrefix;
      screenshotSize := info.screenshotSize;
      imageSize := info.imageSize;
      var models: seq<WatchModel> := [];
      for i := 0 to |info.modelFilenames|
        invariant |models| == i
        invariant forall k :: 0 <= k < i ==> NewlyBuilt(models[k], info, info.modelFilenames[k], descriptions)
      {
        var filename := info.modelFilenames[i];
        var model := new WatchModel(filename, Lookup(info.productIdentifiers, filename),
                                    Lookup(info.activationKeys, filename), descriptions);
        var models' := models + [model];
        assert models'[i] == model;
        assert forall k :: 0 <= k < i ==> models'[k] == models[k];
        models := models';
      }
      allModels := models;
    }

    /** The models shown to the user (`models`): every model that is not unavailable, in order. */
    function Models(defaults: map<string, bool>): (r: seq<WatchModel>)
      reads allModels
      ensures forall m :: m in r ==> m in allModels && m.CurrentOwnership(defaults) != Unavailable
      ensures forall m :: m in allModels && m.CurrentOwnership(defaults) != Unavailable ==> m in r
    {
      Visible(allModels, defaults)
    }

    /** The visible model with the given filename suffix; hidden models are never found. */
    method ModelForFilenameSuffix(filenameSuffix: string, defaults: map<string, bool>) returns (r: Option<WatchModel>)
      ensures r.Some? ==> r.value in allModels && r.value.filenameSuffix == filenameSuffix &&
                          r.value.CurrentOwnership(defaults) != Unavailable
      ensures r.None? <==> forall m :: m in Models(defaults) ==> m.filenameSuffix != filenameSuffix
      ensures r.Some? ==> r == Some(Models(defaults)[IndexOfSuffix(Models(defaults), filenameSuffix).value])
    {
      var models := Models(defaults);
      for i := 0 to |models|
        invariant forall j :: 0 <= j < i ==> models[j].filenameSuffix != filenameSuffix
      {
        if models[i].filenameSuffix == filenameSuffix {
          return Some(models[i]);
        }
      }
      return None;
    }
  }

  /** All models of the given sizes, size by size, in model order. */
  function Catalog(sizes: seq<WatchSize>): seq<WatchModel> {
    if sizes == [] then [] else Catalog(sizes[..|sizes| - 1]) + sizes[|sizes| - 1].allModels
  }

  /** The catalog holds exactly the models of its sizes, hidden ones included. */
  lemma {:induction false} InCatalog(sizes: seq<WatchSize>, m: WatchModel)
    ensures m in Catalog(sizes) <==> exists k :: 0 <= k < |sizes| && m in sizes[k].allModels
  {
    if sizes != [] {
      var front := sizes[..|sizes| - 1];
      InCatalog(front, m);
      assert forall k :: 0 <= k < |front| ==> front[k] == sizes[k];
    }
  }

  lemma {:induction false} CatalogAppend(a: seq<WatchSize>, b: seq<WatchSize>)
    ensures Catalog(a + b) == Catalog(a) + Catalog(b)
  {
    if b == [] {
      assert a + b == a;
    } else {
      var front := b[..|b| - 1];
      assert (a + b)[..|a + b| - 1] == a + front;
      assert (a + b)[|a + b| - 1] == b[|b| - 1];
      CatalogAppend(a, front);
    }
  }

  /** The catalog seen from the `j`-th model of the `i`-th size. */
  lemma CatalogSplit(sizes: seq<WatchSize>, i: nat, j: nat)
    requires i < |sizes| && j < |sizes[i].allModels|
    ensures var models := sizes[i].allModels;
      Catalog(sizes) == (Catalog(sizes[..i]) + models[..j]) + ([models[j]] + models[j + 1..] + Catalog(sizes[i + 1..]))
  {
    var models := sizes[i].allModels;
    CatalogAppend(sizes[..i], sizes[i..]);
    assert sizes[..i] + sizes[i..] == sizes;
    CatalogAppend([sizes[i]], sizes[i + 1..]);
    assert [sizes[i]] + sizes[i + 1..] == sizes[i..];
    assert Catalog([sizes[i]]) == models by {
      assert [sizes[i]][..0] == [];
    }
    assert models == models[..j] + ([models[j]] + models[j + 1..]);
  }

  /** The watch catalog. */
  class WatchManager {
    /** Sizes of watch, in the (unspecified) order the configuration's dictionary yields them. */
    const sizes: seq<WatchSize>
    /** Every model of every size, hidden ones included, size by size. */
    ghost const catalog: seq<WatchModel> := Catalog(sizes)

    /** Builds one size per configuration entry; every model starts without product and receipt. */
    constructor (sizeList: seq<SizeInfo>, descriptions: Descriptions)
      ensures |sizes| == |sizeList|
      ensures forall i :: 0 <= i < |sizes| ==> sizes[i].Configured(sizeList[i], descriptions)
      ensures forall m :: m in Catalog(sizes) ==> m.product.None? && m.receipt.None?
    {
      var built: seq<WatchSize> := [];
      for i := 0 to |sizeList|
        invariant |built| == i
        invariant forall k :: 0 <= k < i ==> built[k].Configured(sizeList[k], descriptions)
        invariant forall k, m :: 0 <= k < i && m in built[k].allModels ==> m.product.None? && m.receipt.None?
        invariant forall k, j :: 0 <= k < i && 0 <= j < |built[k].allModels| ==>
          built[k].allModels[j].product.None? && built[k].allModels[j].receipt.None?
      {
        var watchSize := new WatchSize(sizeList[i], descriptions);
        built := built + [watchSize];
      }
      sizes := built;
      forall m | m in Catalog(built)
        ensures m.product.None? && m.receipt.None?
      {
        InCatalog(built, m);
      }
    }

    /** The first size whose screenshots have the given size; none when no size has it. */
    method SizeForScreenshotSize(screenshotSize: Size) returns (r: Option<WatchSize>)
      ensures r.None? <==> forall s :: s in sizes ==> s.screenshotSize != screenshotSize
      ensures r.Some? ==> exists i :: 0 <= i < |sizes| && sizes[i] == r.value &&
                            r.value.screenshotSize == screenshotSize &&
                            forall j :: 0 <= j < i ==> sizes[j].screenshotSize != screenshotSize
    {
      for i := 0 to |sizes|
        invariant forall j :: 0 <= j < i ==> sizes[j].screenshotSize != screenshotSize
      {
        if sizes[i].screenshotSize == screenshotSize {
          return Some(sizes[i]);
        }
      }
      return None;
    }

    /** Every product identifier of every model, hidden ones included, size by size. */
    method ProductIdentifiers() returns (ids: seq<string>)
      ensures ids == Identifiers(Catalog(sizes))
    {
      ids := [];
      for i := 0 to |sizes|
        invariant ids == Identifiers(Catalog(sizes[..i]))
      {
        var models := sizes[i].allModels;
        var before := Catalog(sizes[..i]);
        assert before + models[..0] == before;
        for j := 0 to |models|
          invariant ids == Identifiers(before + models[..j])
        {
          IdentifiersSnoc(before + models[..j], models[j]);
          assert before + models[..j + 1] == (before + models[..j]) + [models[j]];
          if models[j].productIdentifier.Some? {
            ids := ids + [models[j].productIdentifier.value];
          }
        }
        assert models[..|models|] == models;
        assert sizes[..i + 1][..i] == sizes[..i];
      }
      assert sizes[..|sizes|] == sizes;
    }

    /** The first model, in any size and hidden or not, with the given product identifier. */
    method ModelForProductIdentifier(productIdentifier: string) returns (r: Option<WatchModel>)
      ensures r == FirstWithIdentifier(Catalog(sizes), productIdentifier)
      ensures r.Some? ==> r.value in Catalog(sizes) && r.value.productIdentifier == Some(productIdentifier)
      ensures r.None? <==> forall m :: m in Catalog(sizes) ==> m.productIdentifier != Some(productIdentifier)
    {
      for i := 0 to |sizes|
        invariant forall m :: m in Catalog(sizes[..i]) ==> m.productIdentifier != Some(productIdentifier)
      {
        var models := sizes[i].allModels;
        for j := 0 to |models|
          invariant forall k :: 0 <= k < j ==> models[k].productIdentifier != Some(productIdentifier)
        {
          if models[j].productIdentifier == Some(productIdentifier) {
            var rest := [models[j]] + models[j + 1..] + Catalog(sizes[i + 1..]);
            CatalogSplit(sizes, i, j);
            FirstWithIdentifierSkip(Catalog(sizes[..i]) + models[..j], rest, productIdentifier);
            return Some(models[j]);
          }
        }
        assert models[..|models|] == models;
        assert sizes[..i + 1][..i] == sizes[..i];
      }
      assert sizes[..|sizes|] == sizes;
      return None;
    }
  }
}
