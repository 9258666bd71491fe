/** The Android engine's callbacks (`AccompanistWebViewClient` and
  * `AccompanistWebChromeClient`): each callback records what the engine reports in the
  * shared page state, and page navigations are offered to the application's request
  * interceptor. The engine's own objects (`WebView`, `SslErrorHandler`) appear only
  * through the values the callbacks read from them.
  */
module AndroidClient {
  import opened Strings
  import opened WebState
  import SslPinning

  /** `WebViewClient.ERROR_HOST_LOOKUP` */
  const ERROR_HOST_LOOKUP: Int32 := -2
  /** `Build.VERSION_CODES.M` and `Build.VERSION_CODES.N` */
  const VERSION_CODES_M := 23
  const VERSION_CODES_N := 24
  /** The message shown when the network cannot be reached. */
  const NETWORK_FAILURE_MESSAGE := "网络加载失败，请重新检查网络"

  /** `WebResourceError`: the engine's error code and description. */
  datatype WebResourceError = WebResourceError(errorCode: Int32, description: string)

  /** `WebResourceRequest` as the engine hands it over; the header map and the method
    * may be missing. */
  datatype WebResourceRequest = WebResourceRequest(
    url: string,
    requestHeaders: Option<map<string, string>>,
    isForMainFrame: bool,
    isRedirect: bool,
    httpMethod: Option<string>)

  /** The request offered to the interceptor: headers default to an empty map, the method
    * to `GET`, and the redirect flag is only read on engines from Android N on. */
  function ToWebRequest(request: WebResourceRequest, sdkInt: int): (r: WebRequest)
    ensures r.url == request.url && r.isForMainFrame == request.isForMainFrame
    ensures request.requestHeaders.None? ==> r.headers == map[]
    ensures request.requestHeaders.Some? ==> r.headers == request.requestHeaders.value
    ensures request.httpMethod.None? ==> r.httpMethod == "GET"
    ensures request.httpMethod.Some? ==> r.httpMethod == request.httpMethod.value
    ensures r.isRedirect <==> sdkInt >= VERSION_CODES_N && request.isRedirect
  {
    WebRequest(
      request.url,
      request.requestHeaders.GetOr(map[]),
      request.isForMainFrame,
      if sdkInt >= VERSION_CODES_N then request.isRedirect else false,
      request.httpMethod.GetOr("GET"))
  }

  /** The reports the deprecated `onReceivedError` turns into the error state: a host
    * lookup failure described as `INTERNET_DISCONNECTED`, or any `ADDRESS_UNREACHABLE`. */
  predicate IsNetworkFailure(errorCode: Int32, description: Option<string>) {
    (errorCode == ERROR_HOST_LOOKUP && description == Some("INTERNET_DISCONNECTED"))
      || description == Some("ADDRESS_UNREACHABLE")
  }

  /** The framework's `WebViewClient.onReceivedError(view, request, error)` hands an error
    * of the main frame to the deprecated `onReceivedError(view, code, description, url)`. */
  predicate ForwardsToLegacy(request: Option<WebResourceRequest>, error: Option<WebResourceError>) {
    request.Some? && request.value.isForMainFrame && error.Some?
  }

  class AccompanistWebViewClient {
    const state: WebViewState
    const navigator: WebViewNavigator
    /** Set after a modified request has been reloaded, so that the reload itself is not
      * offered to the interceptor again. */
    var isRedirect: bool

    constructor (state: WebViewState, navigator: WebViewNavigator)
      ensures this.state == state && this.navigator == navigator && !isRedirect
    {
      this.state := state;
      this.navigator := navigator;
      isRedirect := false;
    }

    /** `onPageStarted`: a new load begins at progress 0 with no errors and no title, the
      * URL is recorded, and the viewport script is evaluated. */
    method OnPageStarted(url: Option<string>)
      modifies state, navigator
      ensures state.loadingState == Loading(0) && state.errorsForCurrentRequest == []
      ensures state.pageTitle == None && state.lastLoadedUrl == url
      ensures state.webSettings == old(state.webSettings)
      ensures navigator.commands == old(navigator.commands) + [NavigatorCommand.EvaluateViewportScript]
      ensures navigator.canGoBack == old(navigator.canGoBack)
      ensures navigator.canGoForward == old(navigator.canGoForward)
      ensures navigator.requestInterceptor == old(navigator.requestInterceptor)
    {
      state.loadingState := Loading(0);
      state.errorsForCurrentRequest := [];
      state.pageTitle := None;
      state.lastLoadedUrl := url;
      navigator.EvaluateViewportScript();
    }

    /** `onReceivedSslError`, decided against the pinning hosts of the page's settings. */
    method OnReceivedSslError(error: Option<SslPinning.SslError>, handlerPresent: bool)
      returns (outcome: SslPinning.SslOutcome)
      ensures outcome == SslPinning.OnReceivedSslError(error, handlerPresent, state.webSettings.sslPiningHosts)
    {
      outcome := SslPinning.OnReceivedSslError(error, handlerPresent, state.webSettings.sslPiningHosts);
    }

    /** The deprecated `onReceivedError(view, errorCode, description, failingUrl)`: a host
      * lookup failure reported as `INTERNET_DISCONNECTED`, or any `ADDRESS_UNREACHABLE`,
      * puts the page in the error state; every other report is ignored. */
    method OnReceivedErrorLegacy(errorCode: Int32, description: Option<string>)
      modifies state
      ensures state.loadingState ==
        if IsNetworkFailure(errorCode, description) then ErrorLoading(NETWORK_FAILURE_MESSAGE)
        else old(state.loadingState)
      ensures state.errorsForCurrentRequest == old(state.errorsForCurrentRequest)
      ensures state.pageTitle == old(state.pageTitle) && state.lastLoadedUrl == old(state.lastLoadedUrl)
      ensures state.webSettings == old(state.webSettings)
    {
      if errorCode == ERROR_HOST_LOOKUP && description == Some("INTERNET_DISCONNECTED") {
        state.loadingState := ErrorLoading(NETWORK_FAILURE_MESSAGE);
      } else if description == Some("ADDRESS_UNREACHABLE") {
        state.loadingState := ErrorLoading(NETWORK_FAILURE_MESSAGE);
      }
    }

    /** `onPageFinished`: the load is finished and the URL recorded. */
    method OnPageFinished(url: Option<string>)
      modifies state
      ensures state.loadingState == Finished && state.lastLoadedUrl == url
      ensures state.errorsForCurrentRequest == old(state.errorsForCurrentRequest)
      ensures state.pageTitle == old(state.pageTitle) && state.webSettings == old(state.webSettings)
    {
      state.loadingState := Finished;
      state.lastLoadedUrl := url;
    }

    /** `doUpdateVisitedHistory`: the navigator's history flags follow the engine's. */
    method DoUpdateVisitedHistory(viewCanGoBack: bool, viewCanGoForward: bool)
      modifies navigator
      ensures navigator.canGoBack == viewCanGoBack && navigator.canGoForward == viewCanGoForward
      ensures navigator.commands == old(navigator.commands)
      ensures navigator.requestInterceptor == old(navigator.requestInterceptor)
    {
      navigator.canGoBack := viewCanGoBack;
      navigator.canGoForward := viewCanGoForward;
    }

    /** `onReceivedError(view, request, error)`. The base class first passes an error of
      * the main frame on to the deprecated callback above, which this client overrides,
      * so a network failure there puts the page in the error state. Then, from Android M
      * on, a reported error is appended to the errors of the current request; before M
      * nothing is recorded. */
    method OnReceivedError(sdkInt: int, request: Option<WebResourceRequest>, error: Option<WebResourceError>)
      modifies state
      ensures state.errorsForCurrentRequest ==
        if sdkInt >= VERSION_CODES_M && error.Some?
        then old(state.errorsForCurrentRequest) + [WebViewError(error.value.errorCode, error.value.description)]
        else old(state.errorsForCurrentRequest)
      ensures state.loadingState ==
        if ForwardsToLegacy(request, error)
          && IsNetworkFailure(error.value.errorCode, Some(error.value.description))
        then ErrorLoading(NETWORK_FAILURE_MESSAGE)
        else old(state.loadingState)
      ensures state.pageTitle == old(state.pageTitle) && state.lastLoadedUrl == old(state.lastLoadedUrl)
      ensures state.webSettings == old(state.webSettings)
    {
      if ForwardsToLegacy(request, error) {
        OnReceivedErrorLegacy(error.value.errorCode, Some(error.value.description));
      }
      if sdkInt < VERSION_CODES_M {
        return;
      }
      if error.Some? {
        state.errorsForCurrentRequest :=
          state.errorsForCurrentRequest + [WebViewError(error.value.errorCode, error.value.description)];
      }
    }

    /** `shouldOverrideUrlLoading`: a request is offered to the interceptor unless it is
      * the reload of a modified request, is missing, or there is no interceptor; those
      * go ahead (`false`) and clear the reload flag. An allowed request goes ahead, a
      * rejected one is stopped (`true`), and a modified one is stopped and replaced:
      * the navigator stops loading, then loads the modified URL with its headers.
      * `consulted` is the request the interceptor saw, if any. */
    method ShouldOverrideUrlLoading(request: Option<WebResourceRequest>, sdkInt: int)
      returns (overridden: bool, consulted: Option<WebRequest>)
      modifies this, navigator
      ensures navigator.requestInterceptor == old(navigator.requestInterceptor)
      ensures navigator.canGoBack == old(navigator.canGoBack)
      ensures navigator.canGoForward == old(navigator.canGoForward)
      ensures old(isRedirect) || request.None? || navigator.requestInterceptor.None? ==>
        && !overridden && consulted.None? && !isRedirect
        && navigator.commands == old(navigator.commands)
      ensures !old(isRedirect) && request.Some? && navigator.requestInterceptor.Some? ==>
        var offered := ToWebRequest(request.value, sdkInt);
        var verdict := navigator.requestInterceptor.value(offered);
        && consulted == Some(offered)
        && overridden == !verdict.Allow?
        && isRedirect == verdict.Modify?
        && navigator.commands == old(navigator.commands) +
          if verdict.Modify?
          then [NavigatorCommand.StopLoading, NavigatorCommand.LoadUrl(verdict.request.url, verdict.request.headers)]
          else []
    {
      if isRedirect || request.None? || navigator.requestInterceptor.None? {
        isRedirect := false;
        return false, None;
      }
      var offered := ToWebRequest(request.value, sdkInt);
      consulted := Some(offered);
      var verdict := navigator.requestInterceptor.value(offered);
      match verdict {
        case Allow =>
          overridden := false;
        case Reject =>
          overridden := true;
        case Modify(modified) =>
          isRedirect := true;
          navigator.StopLoading();
          navigator.LoadUrl(modified.url, modified.headers);
          overridden := true;
      }
    }
  }

  class AccompanistWebChromeClient {
    const state: WebViewState
    /** The URL of the last progress report, `""` before the first one and when the
      * engine reports none. */
    var lastLoadedUrl: string

    constructor (state: WebViewState)
      ensures this.state == state && lastLoadedUrl == ""
    {
      this.state := state;
      lastLoadedUrl := "";
    }

    /** `onReceivedTitle`: the title is recorded, and the engine's current URL with it
      * (`""` when it has none). */
    method OnReceivedTitle(title: Option<string>, viewUrl: Option<string>)
      modifies state
      ensures state.pageTitle == title && state.lastLoadedUrl == Some(viewUrl.GetOr(""))
      ensures state.loadingState == old(state.loadingState)
      ensures state.errorsForCurrentRequest == old(state.errorsForCurrentRequest)
      ensures state.webSettings == old(state.webSettings)
    {
      state.pageTitle := title;
      state.lastLoadedUrl := Some(viewUrl.GetOr(""));
    }

    /** `onProgressChanged`: once a page is finished, further reports for the same URL are
      * ignored; otherwise 100 finishes the load and any other value is the new progress,
      * and the reported URL is remembered. */
    method OnProgressChanged(newProgress: Int32, viewUrl: Option<string>)
      modifies this, state
      ensures old(state.loadingState).Finished? && viewUrl == Some(old(lastLoadedUrl)) ==>
        state.loadingState == old(state.loadingState) && lastLoadedUrl == old(lastLoadedUrl)
      ensures !(old(state.loadingState).Finished? && viewUrl == Some(old(lastLoadedUrl))) ==>
        && state.loadingState == (if newProgress == 100 then Finished else Loading(newProgress as int))
        && lastLoadedUrl == viewUrl.GetOr("")
      ensures state.errorsForCurrentRequest == old(state.errorsForCurrentRequest)
      ensures state.pageTitle == old(state.pageTitle) && state.lastLoadedUrl == old(state.lastLoadedUrl)
      ensures state.webSettings == old(state.webSettings)
    {
      if state.loadingState.Finished? && viewUrl == Some(lastLoadedUrl) {
        return;
      }
      state.loadingState := if newProgress == 100 then Finished else Loading(newProgress as int);
      lastLoadedUrl := viewUrl.GetOr("");
    }
  }

  // ---------------------------------------------------------------------------
  // Scenarios relating several callbacks
  // ---------------------------------------------------------------------------

  /** An interceptor that always modifies requests does not loop: the replacement load
    * it triggers is let through without being offered again, so the navigator stops
    * and reloads exactly once. */
  method ModifiedRequestIsReloadedOnce(request: WebResourceRequest, replacement: WebRequest)
    returns (first: bool, second: bool, offeredTwice: bool, commands: seq<NavigatorCommand>)
    ensures first && !second && !offeredTwice
    ensures commands == [NavigatorCommand.StopLoading, NavigatorCommand.LoadUrl(replacement.url, replacement.headers)]
  {
    var state := new WebViewState(WebSettings([]));
    var navigator := new WebViewNavigator(Some((r: WebRequest) => Modify(replacement)));
    var client := new AccompanistWebViewClient(state, navigator);
    var consulted;
    first, consulted := client.ShouldOverrideUrlLoading(Some(request), VERSION_CODES_N);
    second, consulted := client.ShouldOverrideUrlLoading(Some(request), VERSION_CODES_N);
    offeredTwice := consulted.Some?;
    commands := navigator.commands;
  }

  /** Errors recorded for one request are dropped when the next page starts. */
  method ErrorsResetOnPageStart(error: WebResourceError, url: string)
    returns (before: seq<WebViewError>, after: seq<WebViewError>)
    ensures before == [WebViewError(error.errorCode, error.description)]
    ensures after == []
  {
    var state := new WebViewState(WebSettings([]));
    var navigator := new WebViewNavigator(None);
    var client := new AccompanistWebViewClient(state, navigator);
    client.OnReceivedError(VERSION_CODES_M, None, Some(error));
    before := state.errorsForCurrentRequest;
    client.OnPageStarted(Some(url));
    after := state.errorsForCurrentRequest;
  }

  /** An unreachable address reported for the main frame puts the page in the error
    * state; the same report for a sub-frame leaves the state as it was. Both reports are
    * recorded. */
  method UnreachableMainFrameShowsError(request: WebResourceRequest, code: Int32)
    returns (mainFrame: LoadingState, subFrame: LoadingState, errors: seq<WebViewError>)
    ensures mainFrame == ErrorLoading(NETWORK_FAILURE_MESSAGE)
    ensures subFrame == Initializing
    ensures errors == [WebViewError(code, "ADDRESS_UNREACHABLE"), WebViewError(code, "ADDRESS_UNREACHABLE")]
  {
    var error := WebResourceError(code, "ADDRESS_UNREACHABLE");
    var navigator := new WebViewNavigator(None);
    var state := new WebViewState(WebSettings([]));
    var client := new AccompanistWebViewClient(state, navigator);
    client.OnReceivedError(VERSION_CODES_M, Some(request.(isForMainFrame := false)), Some(error));
    subFrame := state.loadingState;
    client.OnReceivedError(VERSION_CODES_M, Some(request.(isForMainFrame := true)), Some(error));
    mainFrame := state.loadingState;
    errors := state.errorsForCurrentRequest;
  }

  /** A finished page stays finished when a late progress report arrives for the same
    * URL, but a report for another URL starts loading again. */
  method FinishedPageIgnoresLateProgress(url: string, other: string, progress: Int32)
    returns (sameUrl: LoadingState, otherUrl: LoadingState)
    requires url != other && progress != 100
    ensures sameUrl == Finished
    ensures otherUrl == Loading(progress as int)
  {
    var state := new WebViewState(WebSettings([]));
    var chrome := new AccompanistWebChromeClient(state);
    chrome.OnProgressChanged(100, Some(url));
    chrome.OnProgressChanged(progress, Some(url));
    sameUrl := state.loadingState;
    chrome.OnProgressChanged(progress, Some(other));
    otherUrl := state.loadingState;
  }
}
