/** The iOS engine's navigation delegate (`WKNavigationDelegate`): each WebKit callback
  * records what the engine reports in the shared page state, and main-frame navigations
  * are offered to the application's request interceptor. WebKit's objects appear as the
  * values the delegate reads from them, and the web view as a small class holding the
  * properties the delegate reads and the requests it is asked to load.
  */
module IosDelegate {
  import opened Strings
  import opened WebState

  /** `NSURLRequest`: `url` is `URL?.absoluteString`, and the header dictionary is given
    * by its entries in enumeration order. */
  datatype NSURLRequest = NSURLRequest(
    url: Option<string>,
    allHTTPHeaderFields: Option<seq<(string, string)>>,
    httpMethod: Option<string>)

  /** `WKFrameInfo` */
  datatype WKFrameInfo = WKFrameInfo(mainFrame: bool)

  /** `WKNavigationAction`: the request, and the frame it targets (none for a new
    * window). */
  datatype WKNavigationAction = WKNavigationAction(request: NSURLRequest, targetFrame: Option<WKFrameInfo>)

  /** `NSError`: `code` is an `NSInteger`, a 64-bit value. */
  datatype NSError = NSError(code: int, localizedDescription: string)

  /** The decision handed to WebKit's decision handler. */
  datatype WKNavigationActionPolicy = WKNavigationActionPolicyAllow | WKNavigationActionPolicyCancel

  /** `NSURL?.toString()`: Kotlin renders a missing URL as `"null"`. */
  function UrlString(url: Option<string>): (r: string)
    ensures url.Some? ==> r == url.value
    ensures url.None? ==> r == "null"
  {
    if url.Some? then url.value else "null"
  }

  /** The web view the delegate is attached to. */
  class WKWebView {
    var url: Option<string>
    var title: Option<string>
    var canGoBack: bool
    var canGoForward: bool
    /** The requests handed to `loadRequest`, in order. */
    var loadedRequests: seq<NSURLRequest>

    constructor (url: Option<string>, title: Option<string>, canGoBack: bool, canGoForward: bool)
      ensures this.url == url && this.title == title
      ensures this.canGoBack == canGoBack && this.canGoForward == canGoForward
      ensures loadedRequests == []
    {
      this.url := url;
      this.title := title;
      this.canGoBack := canGoBack;
      this.canGoForward := canGoForward;
      loadedRequests := [];
    }

    method LoadRequest(request: NSURLRequest)
      modifies this
      ensures loadedRequests == old(loadedRequests) + [request]
      ensures url == old(url) && title == old(title)
      ensures canGoBack == old(canGoBack) && canGoForward == old(canGoForward)
    {
      loadedRequests := loadedRequests + [request];
    }
  }

  // ---------------------------------------------------------------------------
  // The header map offered to the interceptor
  // ---------------------------------------------------------------------------

  /** The map built by storing the header entries one after another: a later entry for
    * the same name replaces an earlier one. */
  function HeaderMap(fields: seq<(string, string)>): (r: map<string, string>)
    ensures |r| <= |fields|
    ensures fields != [] ==> fields[|fields| - 1].0 in r && r[fields[|fields| - 1].0] == fields[|fields| - 1].1
  {
    if fields == [] then map[]
    else
      var last := fields[|fields| - 1];
      HeaderMap(fields[..|fields| - 1])[last.0 := last.1]
  }

  /** The header names of the map are exactly the names of the entries. */
  lemma {:induction false} HeaderMapNames(fields: seq<(string, string)>, name: string)
    ensures name in HeaderMap(fields) <==> exists i :: 0 <= i < |fields| && fields[i].0 == name
  {
    if fields != [] {
      var init := fields[..|fields| - 1];
      HeaderMapNames(init, name);
      if name in HeaderMap(fields) && name != fields[|fields| - 1].0 {
        var i :| 0 <= i < |init| && init[i].0 == name;
        assert fields[i].0 == name;
      }
      if exists i :: 0 <= i < |fields| && fields[i].0 == name {
        var i :| 0 <= i < |fields| && fields[i].0 == name;
        if i < |init| {
          assert init[i].0 == name;
        }
      }
    }
  }

  /** An entry that no later entry overrides keeps its value in the map. */
  lemma {:induction false} HeaderMapLastWins(fields: seq<(string, string)>, i: int)
    requires 0 <= i < |fields|
    requires forall j :: i < j < |fields| ==> fields[j].0 != fields[i].0
    ensures fields[i].0 in HeaderMap(fields) && HeaderMap(fields)[fields[i].0] == fields[i].1
  {
    var init := fields[..|fields| - 1];
    if i < |init| {
      assert init[i] == fields[i];
      assert fields[|fields| - 1].0 != fields[i].0;
      HeaderMapLastWins(init, i);
    }
  }

  /** Header dictionaries have distinct names, so every header field is copied with its
    * value. */
  lemma HeaderMapCopiesAll(fields: seq<(string, string)>, i: int)
    requires forall j, k :: 0 <= j < k < |fields| ==> fields[j].0 != fields[k].0
    requires 0 <= i < |fields|
    ensures fields[i].0 in HeaderMap(fields) && HeaderMap(fields)[fields[i].0] == fields[i].1
  {
    HeaderMapLastWins(fields, i);
  }

  /** The `forEach` that fills `headerMap` from the request's header dictionary. */
  method CopyHeaderFields(fields: Option<seq<(string, string)>>) returns (headerMap: map<string, string>)
    ensures fields.None? ==> headerMap == map[]
    ensures fields.Some? ==> headerMap == HeaderMap(fields.value)
  {
    headerMap := map[];
    if fields.None? {
      return;
    }
    var entries := fields.value;
    var i := 0;
    while i < |entries|
      invariant 0 <= i <= |entries|
      invariant headerMap == HeaderMap(entries[..i])
    {
      assert entries[..i + 1][..i] == entries[..i];
      headerMap := headerMap[entries[i].0 := entries[i].1];
      i := i + 1;
    }
    assert entries[..i] == entries;
  }

  /** Whether a navigation is offered to the interceptor: it has a URL, it is not the
    * reload of a modified request, there is an interceptor, and it targets the main
    * frame. */
  predicate Intercepted(action: WKNavigationAction, isRedirect: bool, interceptor: Option<RequestInterceptor>) {
    action.request.url.Some? && !isRedirect && interceptor.Some? && action.targetFrame == Some(WKFrameInfo(true))
  }

  /** The request offered to the interceptor. */
  function OfferedRequest(action: WKNavigationAction): (r: WebRequest)
    requires action.request.url.Some? && action.targetFrame == Some(WKFrameInfo(true))
    ensures r.url == action.request.url.value
    ensures r.isForMainFrame && !r.isRedirect
    ensures r.httpMethod == action.request.httpMethod.GetOr("GET")
    ensures action.request.allHTTPHeaderFields.None? ==> r.headers == map[]
    ensures forall i :: action.request.allHTTPHeaderFields.Some? && 0 <= i < |action.request.allHTTPHeaderFields.value| ==>
      var fields := action.request.allHTTPHeaderFields.value;
      (forall j :: i < j < |fields| ==> fields[j].0 != fields[i].0) ==>
        fields[i].0 in r.headers && r.headers[fields[i].0] == fields[i].1
  {
    var fields := action.request.allHTTPHeaderFields;
    var headers := if fields.Some? then HeaderMap(fields.value) else map[];
    forall i | fields.Some? && 0 <= i < |fields.value| &&
      (forall j :: i < j < |fields.value| ==> fields.value[j].0 != fields.value[i].0)
      ensures fields.value[i].0 in headers && headers[fields.value[i].0] == fields.value[i].1
    {
      HeaderMapLastWins(fields.value, i);
    }
    WebRequest(action.request.url.value, headers, true, false, action.request.httpMethod.GetOr("GET"))
  }

  class WKNavigationDelegate {
    const state: WebViewState
    const navigator: WebViewNavigator
    /** Set after a modified request has been reloaded, so that the reload itself is not
      * offered to the interceptor again. */
    var isRedirect: bool

    constructor (state: WebViewState, navigator: WebViewNavigator)
      ensures this.state == state && this.navigator == navigator && !isRedirect
    {
      this.state := state;
      this.navigator := navigator;
      isRedirect := false;
    }

    /** `createWebViewWithConfiguration`: no new web view is created; a navigation whose
      * target frame is the main frame is loaded in the current view instead, and any
      * other (a sub-frame, or a new window with no target frame) is dropped. */
    method CreateWebViewWithConfiguration(webView: WKWebView, action: WKNavigationAction)
      returns (created: Option<WKWebView>)
      modifies webView
      ensures created.None?
      ensures webView.loadedRequests ==
        old(webView.loadedRequests) + if action.targetFrame == Some(WKFrameInfo(true)) then [action.request] else []
      ensures webView.url == old(webView.url) && webView.title == old(webView.title)
      ensures webView.canGoBack == old(webView.canGoBack) && webView.canGoForward == old(webView.canGoForward)
    {
      if action.targetFrame.Some? && action.targetFrame.value.mainFrame {
        webView.LoadRequest(action.request);
      }
      return None;
    }

    /** `didStartProvisionalNavigation`: a new load begins at progress 0 with no errors,
      * and the view's URL is recorded; unlike on Android the title is kept. */
    method DidStartProvisionalNavigation(webView: WKWebView)
      modifies state
      ensures state.loadingState == Loading(0) && state.errorsForCurrentRequest == []
      ensures state.lastLoadedUrl == Some(UrlString(webView.url))
      ensures state.pageTitle == old(state.pageTitle) && state.webSettings == old(state.webSettings)
    {
      state.loadingState := Loading(0);
      state.lastLoadedUrl := Some(UrlString(webView.url));
      state.errorsForCurrentRequest := [];
    }

    /** `didFinishNavigation`: the view's title and URL are recorded, the load is
      * finished, and the navigator's history flags follow the view's. */
    method DidFinishNavigation(webView: WKWebView)
      modifies state, navigator
      ensures state.pageTitle == webView.title && state.lastLoadedUrl == Some(UrlString(webView.url))
      ensures state.loadingState == Finished
      ensures state.errorsForCurrentRequest == old(state.errorsForCurrentRequest)
      ensures state.webSettings == old(state.webSettings)
      ensures navigator.canGoBack == webView.canGoBack && navigator.canGoForward == webView.canGoForward
      ensures navigator.commands == old(navigator.commands)
      ensures navigator.requestInterceptor == old(navigator.requestInterceptor)
    {
      state.pageTitle := webView.title;
      state.lastLoadedUrl := Some(UrlString(webView.url));
      state.loadingState := Finished;
      navigator.canGoBack := webView.canGoBack;
      navigator.canGoForward := webView.canGoForward;
    }

    /** `didFailProvisionalNavigation`: the error is appended to the errors of the
      * current request, its code cut to 32 bits; the load state is left as it is. */
    method DidFailProvisionalNavigation(error: NSError)
      modifies state
      ensures state.errorsForCurrentRequest ==
        old(state.errorsForCurrentRequest) + [WebViewError(ToInt32(error.code), error.localizedDescription)]
      ensures state.loadingState == old(state.loadingState)
      ensures state.pageTitle == old(state.pageTitle) && state.lastLoadedUrl == old(state.lastLoadedUrl)
      ensures state.webSettings == old(state.webSettings)
    {
      state.errorsForCurrentRequest :=
        state.errorsForCurrentRequest + [WebViewError(ToInt32(error.code), error.localizedDescription)];
    }

    /** `decidePolicyForNavigationAction`: a navigation that is not offered to the
      * interceptor is allowed and clears the reload flag. An offered one is allowed or
      * cancelled as the interceptor says; a modified one is cancelled and replaced: the
      * navigator stops loading, then loads the modified URL with its headers, and the
      * reload flag is set. `consulted` is the request the interceptor saw, if any. */
    method DecidePolicyForNavigationAction(action: WKNavigationAction)
      returns (policy: WKNavigationActionPolicy, consulted: Option<WebRequest>)
      modifies this, navigator
      ensures navigator.requestInterceptor == old(navigator.requestInterceptor)
      ensures navigator.canGoBack == old(navigator.canGoBack)
      ensures navigator.canGoForward == old(navigator.canGoForward)
      ensures !Intercepted(action, old(isRedirect), navigator.requestInterceptor) ==>
        && policy == WKNavigationActionPolicyAllow && consulted.None? && !isRedirect
        && navigator.commands == old(navigator.commands)
      ensures Intercepted(action, old(isRedirect), navigator.requestInterceptor) ==>
        var offered := OfferedRequest(action);
        var verdict := navigator.requestInterceptor.value(offered);
        && consulted == Some(offered)
        && (policy == WKNavigationActionPolicyAllow <==> verdict.Allow?)
        && isRedirect == verdict.Modify?
        && navigator.commands == old(navigator.commands) +
          if verdict.Modify?
          then [NavigatorCommand.StopLoading, NavigatorCommand.LoadUrl(verdict.request.url, verdict.request.headers)]
          else []
    {
      var url := action.request.url;
      if url.Some? && !isRedirect && navigator.requestInterceptor.Some? &&
        action.targetFrame.Some? && action.targetFrame.value.mainFrame
      {
        var headerMap := CopyHeaderFields(action.request.allHTTPHeaderFields);
        var webRequest := WebRequest(
          url.GetOr(""),
          headerMap,
          if action.targetFrame.Some? then action.targetFrame.value.mainFrame else false,
          isRedirect,
          action.request.httpMethod.GetOr("GET"));
        consulted := Some(webRequest);
        var verdict := navigator.requestInterceptor.value(webRequest);
        match verdict {
          case Allow =>
            policy := WKNavigationActionPolicyAllow;
          case Reject =>
            policy := WKNavigationActionPolicyCancel;
          case Modify(modified) =>
            isRedirect := true;
            navigator.StopLoading();
            navigator.LoadUrl(modified.url, modified.headers);
            policy := WKNavigationActionPolicyCancel;
        }
      } else {
        isRedirect := false;
        policy, consulted := WKNavigationActionPolicyAllow, None;
      }
    }
  }

  // ---------------------------------------------------------------------------
  // Scenarios relating several callbacks
  // ---------------------------------------------------------------------------

  /** An interceptor that always modifies navigations does not loop: the replacement load
    * it triggers is allowed without being offered again, so the navigator stops and
    * reloads exactly once. */
  method ModifiedNavigationIsReloadedOnce(action: WKNavigationAction, replacement: WebRequest)
    returns (first: WKNavigationActionPolicy, second: WKNavigationActionPolicy, offeredTwice: bool,
             commands: seq<NavigatorCommand>)
    requires action.request.url.Some? && action.targetFrame == Some(WKFrameInfo(true))
    ensures first == WKNavigationActionPolicyCancel && second == WKNavigationActionPolicyAllow
    ensures !offeredTwice
    ensures commands == [NavigatorCommand.StopLoading, NavigatorCommand.LoadUrl(replacement.url, replacement.headers)]
  {
    var state := new WebViewState(WebSettings([]));
    var navigator := new WebViewNavigator(Some((r: WebRequest) => Modify(replacement)));
    var delegate := new WKNavigationDelegate(state, navigator);
    var consulted;
    first, consulted := delegate.DecidePolicyForNavigationAction(action);
    second, consulted := delegate.DecidePolicyForNavigationAction(action);
    offeredTwice := consulted.Some?;
    commands := navigator.commands;
  }

  /** Navigations outside the main frame are allowed without asking the interceptor, even
    * one that rejects everything; on Android every request is offered. */
  method SubFrameNavigationIsNotOffered(request: NSURLRequest, target: Option<WKFrameInfo>)
    returns (policy: WKNavigationActionPolicy, offered: bool)
    requires target != Some(WKFrameInfo(true))
    ensures policy == WKNavigationActionPolicyAllow && !offered
  {
    var state := new WebViewState(WebSettings([]));
    var navigator := new WebViewNavigator(Some((r: WebRequest) => Reject));
    var delegate := new WKNavigationDelegate(state, navigator);
    var consulted;
    policy, consulted := delegate.DecidePolicyForNavigationAction(WKNavigationAction(request, target));
    offered := consulted.Some?;
  }

  /** When the next navigation starts, the errors of the previous one are dropped but
    * its title is kept (on Android the title is cleared as well). */
  method TitleSurvivesNextNavigation(webView: WKWebView, error: NSError)
    returns (title: Option<string>, errors: seq<WebViewError>, loading: LoadingState)
    ensures title == webView.title && errors == [] && loading == Loading(0)
  {
    var state := new WebViewState(WebSettings([]));
    var navigator := new WebViewNavigator(None);
    var delegate := new WKNavigationDelegate(state, navigator);
    delegate.DidFinishNavigation(webView);
    delegate.DidFailProvisionalNavigation(error);
    delegate.DidStartProvisionalNavigation(webView);
    title, errors, loading := state.pageTitle, state.errorsForCurrentRequest, state.loadingState;
  }
}
