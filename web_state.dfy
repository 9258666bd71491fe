/** The page state and the navigator that the native engine callbacks update, and the
  * request-interception values the callbacks exchange with the application. These types
  * are declared by the library outside the callback classes; only the parts the
  * callbacks use are modelled.
  */
module WebState {
  import opened Strings

  /** The lifecycle of one page load. `Loading` carries the progress as a whole
    * percentage (the engines report `percent / 100` as a float). */
  datatype LoadingState =
    | Initializing
    | Loading(percent: int)
    | Finished
    | ErrorLoading(errorMessage: string)

  /** An error reported by the engine for the current request. */
  datatype WebViewError = WebViewError(code: Int32, description: string)

  /** A navigation request as handed to the application's interceptor. */
  datatype WebRequest = WebRequest(
    url: string,
    headers: map<string, string>,
    isForMainFrame: bool,
    isRedirect: bool,
    httpMethod: string)

  /** The interceptor's verdict on a request. */
  datatype WebRequestInterceptResult = Allow | Reject | Modify(request: WebRequest)

  /** The application's `RequestInterceptor.onInterceptUrlRequest`, as a decision over
    * the request. */
  type RequestInterceptor = WebRequest -> WebRequestInterceptResult

  /** The part of the web settings the callbacks read. */
  datatype WebSettings = WebSettings(sslPiningHosts: seq<string>)

  /** A command a callback issues through the navigator. `EvaluateViewportScript` stands
    * for the viewport script injected at page start, whose text is not modelled. */
  datatype NavigatorCommand =
    | StopLoading
    | LoadUrl(url: string, additionalHttpHeaders: map<string, string>)
    | EvaluateViewportScript

  /** The observable state of one web view. */
  class WebViewState {
    var loadingState: LoadingState
    var errorsForCurrentRequest: seq<WebViewError>
    var pageTitle: Option<string>
    var lastLoadedUrl: Option<string>
    var webSettings: WebSettings

    constructor (settings: WebSettings)
      ensures loadingState == Initializing && errorsForCurrentRequest == []
      ensures pageTitle == None && lastLoadedUrl == None && webSettings == settings
    {
      loadingState := Initializing;
      errorsForCurrentRequest := [];
      pageTitle := None;
      lastLoadedUrl := None;
      webSettings := settings;
    }
  }

  /** The navigator: the history flags the callbacks copy from the engine, the
    * application's interceptor, and the log of commands issued through it, in order. */
  class WebViewNavigator {
    var canGoBack: bool
    var canGoForward: bool
    var requestInterceptor: Option<RequestInterceptor>
    var commands: seq<NavigatorCommand>

    constructor (interceptor: Option<RequestInterceptor>)
      ensures !canGoBack && !canGoForward
      ensures requestInterceptor == interceptor && commands == []
    {
      canGoBack, canGoForward := false, false;
      requestInterceptor := interceptor;
      commands := [];
    }

    method StopLoading()
      modifies this
      ensures commands == old(commands) + [NavigatorCommand.StopLoading]
      ensures canGoBack == old(canGoBack) && canGoForward == old(canGoForward)
      ensures requestInterceptor == old(requestInterceptor)
    {
      commands := commands + [NavigatorCommand.StopLoading];
    }

    method LoadUrl(url: string, additionalHttpHeaders: map<string, string>)
      modifies this
      ensures commands == old(commands) + [NavigatorCommand.LoadUrl(url, additionalHttpHeaders)]
      ensures canGoBack == old(canGoBack) && canGoForward == old(canGoForward)
      ensures requestInterceptor == old(requestInterceptor)
    {
      commands := commands + [NavigatorCommand.LoadUrl(url, additionalHttpHeaders)];
    }

    method EvaluateViewportScript()
      modifies this
      ensures commands == old(commands) + [NavigatorCommand.EvaluateViewportScript]
      ensures canGoBack == old(canGoBack) && canGoForward == old(canGoForward)
      ensures requestInterceptor == old(requestInterceptor)
    {
      commands := commands + [NavigatorCommand.EvaluateViewportScript];
    }
  }
}
