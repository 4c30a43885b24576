/**
 * The loading screen: it asks for access to the photo library, fetches the
 * screenshots of the catalog's sizes, and routes to the authorization-error,
 * no-screenshots or picker screen once it can perform segues.
 */
module Loading {
  import opened Options
  import opened Watches

  /** The photo library's authorization status. */
  datatype AuthorizationStatus = NotDetermined | Restricted | Denied | Authorized

  /** A photo-library fetch result; routing looks only at its number of assets. */
  datatype FetchResult = FetchResult(count: nat)

  datatype Segue = AuthorizationErrorSegue | LoadedSegue | NoScreenshotsSegue | AuthorizedSegue

  /** What routing does: nothing, refresh the authorization-error screen's message, or perform a segue. */
  datatype Transition = Stay | UpdateErrorMessage | Perform(segue: Segue)

  /** Requests to the photo library. */
  datatype LibraryRequest =
    | RegisterChangeObserver
    | RequestAuthorization
    /** Images whose pixel size is one of `sizes`, newest first. */
    | FetchImages(sizes: seq<Size>)

  /** The pixel sizes the fetch asks for: one per watch size, in order. */
  function ScreenshotSizes(sizes: seq<WatchSize>): (r: seq<Size>)
    ensures |r| == |sizes|
    ensures forall i :: 0 <= i < |sizes| ==> r[i] == sizes[i].screenshotSize
  {
    if sizes == [] then [] else ScreenshotSizes(sizes[..|sizes| - 1]) + [sizes[|sizes| - 1].screenshotSize]
  }

  /** The fetch returns a screenshot exactly when some watch size has its pixel size, so the picker can always find its size. */
  lemma FetchedHaveSize(sizes: seq<WatchSize>, pixelSize: Size)
    ensures pixelSize in ScreenshotSizes(sizes) <==> exists s :: s in sizes && s.screenshotSize == pixelSize
  {
  }

  /** The picker screen's share of the hand-over: the fetch result it shows. */
  class Picker {
    var fetchResult: Option<FetchResult>

    constructor ()
      ensures fetchResult.None?
    {
      fetchResult := None;
    }
  }

  class LoadingController {
    /** The photo-library fetch result, once the fetch has completed. */
    var fetchResult: Option<FetchResult>
    /** When set, an empty fetch result is ignored until the library reports a change to it. */
    var expectingFetchResultChange: bool
    /** Set once the view has appeared and segues can be performed. */
    var canSegue: bool

    constructor ()
      ensures fetchResult.None? && !expectingFetchResultChange && !canSegue
    {
      fetchResult := None;
      expectingFetchResultChange := false;
      canSegue := false;
    }

    /**
     * Routing, for the current authorization status and whether the
     * authorization-error screen is on top of the navigation stack.
     */
    function UpdateViewControllers(status: AuthorizationStatus, errorScreenOnTop: bool): (t: Transition)
      reads this
      ensures !canSegue ==> t == Stay
      ensures t == UpdateErrorMessage <==> canSegue && status != Authorized && errorScreenOnTop
      ensures t == Perform(AuthorizationErrorSegue) <==> canSegue && status != Authorized && !errorScreenOnTop
      ensures t == Perform(LoadedSegue) <==>
                canSegue && status == Authorized && fetchResult.Some? && fetchResult.value.count > 0
      ensures t == Perform(NoScreenshotsSegue) <==>
                canSegue && status == Authorized && fetchResult == Some(FetchResult(0)) && !expectingFetchResultChange
      ensures t == Perform(AuthorizedSegue) <==>
                canSegue && status == Authorized && fetchResult.None? && errorScreenOnTop
    {
      if !canSegue then Stay
      else
        match status
        case NotDetermined | Restricted | Denied =>
          if errorScreenOnTop then UpdateErrorMessage else Perform(AuthorizationErrorSegue)
        case Authorized =>
          if fetchResult.Some? && fetchResult.value.count > 0 then Perform(LoadedSegue)
          else if fetchResult.Some? then
            if !expectingFetchResultChange then Perform(NoScreenshotsSegue) else Stay
          else if errorScreenOnTop then Perform(AuthorizedSegue)
          else Stay
    }

    /**
     * Loading the view: observe library changes, ask for authorization when
     * it is not yet determined, and fetch the screenshots of every size.
     */
    method ViewDidLoad(status: AuthorizationStatus, manager: WatchManager) returns (requests: seq<LibraryRequest>)
      ensures requests == [RegisterChangeObserver] + (if status == NotDetermined then [RequestAuthorization] else []) +
                          [FetchImages(ScreenshotSizes(manager.sizes))]
    {
      requests := [RegisterChangeObserver];
      if status == NotDetermined {
        requests := requests + [RequestAuthorization];
      }
      var sizes := [];
      for i := 0 to |manager.sizes|
        invariant sizes == ScreenshotSizes(manager.sizes[..i])
      {
        assert manager.sizes[..i + 1][..i] == manager.sizes[..i];
        sizes := sizes + [manager.sizes[i].screenshotSize];
      }
      assert manager.sizes[..|manager.sizes|] == manager.sizes;
      requests := requests + [FetchImages(sizes)];
    }

    /** The user answered the authorization request: route again. */
    method AuthorizationAnswered(status: AuthorizationStatus, errorScreenOnTop: bool) returns (t: Transition)
      ensures t == UpdateViewControllers(status, errorScreenOnTop)
    {
      t := UpdateViewControllers(status, errorScreenOnTop);
    }

    /**
     * The initial fetch completed. A fetch that arrives while authorization is
     * still undetermined will be followed by a change, so it is not routed on
     * until then.
     */
    method FetchCompleted(result: FetchResult, status: AuthorizationStatus, errorScreenOnTop: bool) returns (t: Transition)
      modifies this
      ensures fetchResult == Some(result) && expectingFetchResultChange == (status == NotDetermined)
      ensures canSegue == old(canSegue)
      ensures t == UpdateViewControllers(status, errorScreenOnTop)
    {
      fetchResult := Some(result);
      expectingFetchResultChange := status == NotDetermined;
      t := UpdateViewControllers(status, errorScreenOnTop);
    }

    /** The view appeared: segues are now possible, so route. */
    method ViewDidAppear(status: AuthorizationStatus, errorScreenOnTop: bool) returns (t: Transition)
      modifies this
      ensures canSegue
      ensures fetchResult == old(fetchResult) && expectingFetchResultChange == old(expectingFetchResultChange)
      ensures t == UpdateViewControllers(status, errorScreenOnTop)
    {
      canSegue := true;
      t := UpdateViewControllers(status, errorScreenOnTop);
    }

    /**
     * The photo library changed. `changed` is the fetch result after the
     * change when the change touches the current fetch; it replaces the
     * result and ends the wait for a change before routing again.
     */
    method PhotoLibraryDidChange(changed: Option<FetchResult>, status: AuthorizationStatus, errorScreenOnTop: bool)
      returns (t: Transition)
      modifies this
      ensures changed.None? ==> fetchResult == old(fetchResult) &&
                                expectingFetchResultChange == old(expectingFetchResultChange) && t == Stay
      ensures changed.Some? ==> fetchResult == changed && !expectingFetchResultChange &&
                                t == UpdateViewControllers(status, errorScreenOnTop)
      ensures canSegue == old(canSegue)
    {
      t := Stay;
      if changed.Some? {
        fetchResult := changed;
        expectingFetchResultChange := false;
        t := UpdateViewControllers(status, errorScreenOnTop);
      }
    }

    /** Before a segue: the picker receives the current fetch result. */
    method PrepareForSegue(segue: Segue, destination: Picker)
      modifies destination
      ensures segue == LoadedSegue ==> destination.fetchResult == fetchResult
      ensures segue != LoadedSegue ==> destination.fetchResult == old(destination.fetchResult)
    {
      if segue == LoadedSegue {
        destination.fetchResult := fetchResult;
      }
    }
  }

  /** Whenever routing loads the picker, the result handed to it holds at least one screenshot. */
  lemma LoadedHandsScreenshots(c: LoadingController, status: AuthorizationStatus, errorScreenOnTop: bool)
    requires c.UpdateViewControllers(status, errorScreenOnTop) == Perform(LoadedSegue)
    ensures c.fetchResult.Some? && c.fetchResult.value.count > 0
  {
  }

  /**
   * An empty result fetched while authorization was undetermined never routes
   * to the no-screenshots screen: the change that follows decides.
   */
  lemma EmptyEarlyFetchWaits(c: LoadingController, status: AuthorizationStatus, errorScreenOnTop: bool)
    requires c.fetchResult == Some(FetchResult(0)) && c.expectingFetchResultChange
    ensures c.UpdateViewControllers(status, errorScreenOnTop) != Perform(NoScreenshotsSegue)
    ensures c.UpdateViewControllers(status, errorScreenOnTop) != Perform(LoadedSegue)
  {
  }
}
