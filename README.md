# compose-webview-multiplatform core, modelled in Dafny

This project models the platform-independent logic of the compose-webview-multiplatform
library and proves properties of it. It covers four parts.

- **JS bridge** (`js_bridge.dfy`). This is the `JsMessage` envelope and the
  `JsMessageDispatcher` registry of native handlers. The registry is a Kotlin
  `LinkedHashMap`, so the model keeps the map and the order in which keys were first
  inserted. The registry supports register, unregister, `canHandle`, clear and dispatch.
  It also produces the script stub that `postWebviewDelegateMethod` evaluates for each
  handler, and the model proves that this stub text can be read back unambiguously.
- **Android engine callbacks** (`android_client.dfy`, `ssl_pinning.dfy`). These are the
  callbacks of `AccompanistWebViewClient` and `AccompanistWebChromeClient`. Each one
  updates the shared page state (`WebViewState`) and the navigator (`WebViewNavigator`);
  both are declared in `web_state.dfy`. The navigator keeps a log of the commands issued
  through it. The SSL certificate-pinning pattern is written as a hand-made matcher, and
  the model proves it accepts exactly the URLs the pattern describes.
- **iOS navigation delegate** (`ios_delegate.dfy`). This is `WKNavigationDelegate` over
  the same page state. The interceptor sees only main-frame navigations, and a new
  navigation keeps the page title.
- **Build helpers** (`build_config.dfy`, `build_plist.dfy`). `updateXcodeConfigFile`
  merges key/value pairs into an `.xcconfig` table and writes it back, sorted, only when
  something changed. `getAllPlistFiles` collects each configuration's Info.plist path.
  `processPlistFiles` decides which plist files are rewritten and when processing stops.

`strings.dfy` holds what the modules share: Kotlin's `Int`, decimal rendering, `joinToString`,
`split`, `isBlank`, `trim(c)`, `contains` and `replace`.

## Modelling decisions

- **Interceptor.** The application's request interceptor is a function from `WebRequest` to
  `Allow | Reject | Modify(request)`. Calls to `stopLoading` and `loadUrl` on the navigator
  are appended to a command log, so their order can be checked.
- **Missing URLs on iOS.** `webView.URL.toString()` of a missing URL is the text `"null"`,
  as Kotlin renders it. The model writes a present URL as its absolute string.
- **iOS error codes.** The `NSError` code is a 64-bit `NSInteger`. `toInt()` keeps its low
  32 bits.
- **Progress.** `Loading` carries the progress as a whole percentage. The code passes
  `newProgress / 100.0f` through without clamping
  (webview/src/androidMain/kotlin/com/multiplatform/webview/web/AccompanistWebView.kt:521),
  and the model follows the code.
- **createWebViewWithConfiguration.** The code loads the request in the current view when
  the target frame is the main frame. The comment above it shows the Objective-C idiom
  with the opposite test, which loads when the target is *not* the main frame. The model
  follows the code.
- **Properties on disk.** A `Properties` file is the map it loads to. The file system of
  `processPlistFiles` is a map from relative path to text.
- **Regular-expression scans.** The scans of `getAllPlistFiles` appear as their match
  groups, one `ConfigurationMatch` per configuration found. The launch-screen edits of
  `processPlistFiles` (`Utils.kt:110-186`) are a function from a plist's text to either
  "end processing" or the edited text.

## Model

| member | source | states |
|---|---|---|
| JsBridge.MessageWithoutParams | webview/src/commonMain/kotlin/com/multiplatform/webview/jsbridge/JsMessage.kt:17-24 | a message built without parameters keeps its id and method name and has `params == ""` |
| JsBridge.JsMessageDispatcher.constructor | webview/src/commonMain/kotlin/com/multiplatform/webview/jsbridge/JsMessageDispatcher.kt:15-16 | a new dispatcher has no handlers and satisfies the registry invariant |
| JsBridge.JsMessageDispatcher.RegisterJSHandler | webview/src/commonMain/kotlin/com/multiplatform/webview/jsbridge/JsMessageDispatcher.kt:18-20 | the handler is stored under its method name, replacing any previous one; every other entry is unchanged; a new key goes last in iteration order and a replaced key keeps its place |
| JsBridge.JsMessageDispatcher.Dispatch | webview/src/commonMain/kotlin/com/multiplatform/webview/jsbridge/JsMessageDispatcher.kt:22-28 | a handler is invoked iff one is registered under the message's method name; it is that handler, called once with the same message, navigator and callback; the registry is not changed |
| JsBridge.JsMessageDispatcher.CanHandle | webview/src/commonMain/kotlin/com/multiplatform/webview/jsbridge/JsMessageDispatcher.kt:30 | true exactly when `id` is a key of the handler map |
| JsBridge.JsMessageDispatcher.UnregisterJSHandler | webview/src/commonMain/kotlin/com/multiplatform/webview/jsbridge/JsMessageDispatcher.kt:32-34 | the method name is removed whichever handler object is stored under it; other entries are untouched; an absent name changes nothing; the key leaves the iteration order |
| JsBridge.JsMessageDispatcher.Clear | webview/src/commonMain/kotlin/com/multiplatform/webview/jsbridge/JsMessageDispatcher.kt:36-38 | the map is empty and `canHandle` is false for every name |
| JsBridge.JsMessageDispatcher.PostWebviewDelegateMethod | webview/src/commonMain/kotlin/com/multiplatform/webview/jsbridge/JsMessageDispatcher.kt:40-52 | with no web view nothing is evaluated; otherwise one stub per entry is evaluated, in iteration order, each built from its key and handler; a negative parameter count makes `List(n)` throw and stops the loop at that entry |
| JsBridge.JsMessageDispatcher.OrderCoversMap | webview/src/commonMain/kotlin/com/multiplatform/webview/jsbridge/JsMessageDispatcher.kt:41 | the iteration order lists exactly as many keys as the map holds |
| JsBridge.KeyEntries | webview/src/commonMain/kotlin/com/multiplatform/webview/jsbridge/JsMessageDispatcher.kt:45 | the parameter object has `methodParamCount` entries and entry `i` is `'key<i>': args[<i>]` |
| JsBridge.KeyEntryInjective | webview/src/commonMain/kotlin/com/multiplatform/webview/jsbridge/JsMessageDispatcher.kt:45 | distinct argument positions give distinct entries, so the object has exactly `methodParamCount` keys |
| JsBridge.StubLines | webview/src/commonMain/kotlin/com/multiplatform/webview/jsbridge/JsMessageDispatcher.kt:42-51 | a stub has eight lines (header, argument-count guard, parameter packing, `callNative`, else, `console.error`, closing lines), and none breaks when the bridge name and key have none |
| JsBridge.StubScript | webview/src/commonMain/kotlin/com/multiplatform/webview/jsbridge/JsMessageDispatcher.kt:42-51 | split at line breaks, the stub script gives back exactly its eight lines when the bridge name and key have no line break |
| JsBridge.StubScriptInjective | webview/src/commonMain/kotlin/com/multiplatform/webview/jsbridge/JsMessageDispatcher.kt:42-51 | equal stub texts come from equal bridge names, keys, minimal and maximal parameter counts: the text depends on those four values and determines them |
| JsBridge.GuardLineInjective | webview/src/commonMain/kotlin/com/multiplatform/webview/jsbridge/JsMessageDispatcher.kt:44 | the argument-count guard determines both bounds `minimalParamCount` and `methodParamCount` |
| JsBridge.StubsAt | webview/src/commonMain/kotlin/com/multiplatform/webview/jsbridge/JsMessageDispatcher.kt:41-51 | the `i`-th evaluated stub is the stub of the `i`-th key with the handler registered under it |
| JsBridge.ReplacedHandlerReceivesMessage | webview/src/commonMain/kotlin/com/multiplatform/webview/jsbridge/JsMessageDispatcher.kt:18-28 | after two registrations under one name, a message for that name reaches the second handler only |
| JsBridge.UnregisterByNameDropsMessages | webview/src/commonMain/kotlin/com/multiplatform/webview/jsbridge/JsMessageDispatcher.kt:22-34 | unregistering another handler object with the same name removes the registered one; `canHandle` is then false and dispatch invokes nothing |
| Strings.ParseIntToString | webview/src/commonMain/kotlin/com/multiplatform/webview/jsbridge/JsMessageDispatcher.kt:44 | the decimal text written into a stub reads back as the same integer |
| Strings.IntToStringPrefixFree | webview/src/commonMain/kotlin/com/multiplatform/webview/jsbridge/JsMessageDispatcher.kt:44 | a number followed by non-digit text is recovered uniquely, with that text |
| AndroidClient.ToWebRequest | webview/src/androidMain/kotlin/com/multiplatform/webview/web/AccompanistWebView.kt:425-438 | the offered request keeps the URL and main-frame flag; headers default to an empty map and the method to `GET`; the redirect flag is read only from Android N on |
| AndroidClient.AccompanistWebViewClient.constructor | webview/src/androidMain/kotlin/com/multiplatform/webview/web/AccompanistWebView.kt:278-283 | the client is bound to its state and navigator, with the reload flag clear |
| AndroidClient.AccompanistWebViewClient.OnPageStarted | webview/src/androidMain/kotlin/com/multiplatform/webview/web/AccompanistWebView.kt:285-308 | Loading(0), no errors, no title, `lastLoadedUrl == url`; the viewport script is issued through the navigator and nothing else changes |
| WebState.WebViewNavigator.EvaluateViewportScript | webview/src/androidMain/kotlin/com/multiplatform/webview/web/AccompanistWebView.kt:307 | one script evaluation is appended to the navigator's commands; history flags and interceptor are unchanged |
| WebState.WebViewNavigator.StopLoading | webview/src/androidMain/kotlin/com/multiplatform/webview/web/AccompanistWebView.kt:456 | one `stopLoading` is appended to the navigator's commands; history flags and interceptor are unchanged |
| WebState.WebViewNavigator.LoadUrl | webview/src/androidMain/kotlin/com/multiplatform/webview/web/AccompanistWebView.kt:457 | one `loadUrl(url, headers)` is appended to the navigator's commands; history flags and interceptor are unchanged |
| AndroidClient.AccompanistWebViewClient.OnReceivedSslError | webview/src/androidMain/kotlin/com/multiplatform/webview/web/AccompanistWebView.kt:312-340 | the outcome is the pinning decision over the hosts in the page's settings |
| AndroidClient.AccompanistWebViewClient.OnReceivedErrorLegacy | webview/src/androidMain/kotlin/com/multiplatform/webview/web/AccompanistWebView.kt:344-360 | ErrorLoading with the network-failure message exactly when (HOST_LOOKUP and `INTERNET_DISCONNECTED`) or `ADDRESS_UNREACHABLE`; otherwise the state is unchanged |
| AndroidClient.AccompanistWebViewClient.OnPageFinished | webview/src/androidMain/kotlin/com/multiplatform/webview/web/AccompanistWebView.kt:363-373 | Finished and `lastLoadedUrl == url`; errors, title and settings unchanged |
| AndroidClient.AccompanistWebViewClient.DoUpdateVisitedHistory | webview/src/androidMain/kotlin/com/multiplatform/webview/web/AccompanistWebView.kt:375-387 | the navigator's history flags equal the engine's; commands and interceptor unchanged |
| AndroidClient.AccompanistWebViewClient.OnReceivedError | webview/src/androidMain/kotlin/com/multiplatform/webview/web/AccompanistWebView.kt:389-412 | an error of the main frame goes first through the base class to the deprecated callback, so a network failure sets ErrorLoading with the network-failure message; otherwise the load state is unchanged. From Android M on, a non-null error appends exactly one `WebViewError(code, description)` at the end; otherwise nothing is recorded |
| AndroidClient.UnreachableMainFrameShowsError | webview/src/androidMain/kotlin/com/multiplatform/webview/web/AccompanistWebView.kt:344-412 | an unreachable address reported for a sub-frame leaves the state as it was; reported for the main frame, it gives ErrorLoading; both reports are recorded |
| AndroidClient.AccompanistWebViewClient.ShouldOverrideUrlLoading | webview/src/androidMain/kotlin/com/multiplatform/webview/web/AccompanistWebView.kt:414-462 | a reload, a null request or no interceptor: not overridden, interceptor not consulted, flag cleared, no command; otherwise the interceptor sees the converted request, Allow gives false, Reject gives true, and Modify gives true, sets the flag and logs `stopLoading` then `loadUrl(url, headers)` |
| AndroidClient.AccompanistWebChromeClient.constructor | webview/src/androidMain/kotlin/com/multiplatform/webview/web/AccompanistWebView.kt:484-488 | the remembered progress URL starts as `""` |
| AndroidClient.AccompanistWebChromeClient.OnReceivedTitle | webview/src/androidMain/kotlin/com/multiplatform/webview/web/AccompanistWebView.kt:490-500 | the title is recorded, and `lastLoadedUrl` is the view's URL or `""`; nothing else changes |
| AndroidClient.AccompanistWebChromeClient.OnProgressChanged | webview/src/androidMain/kotlin/com/multiplatform/webview/web/AccompanistWebView.kt:511-524 | when Finished for the remembered URL nothing changes; otherwise 100 gives Finished, any other value gives Loading of that value, and the view's URL (or `""`) is remembered |
| AndroidClient.ModifiedRequestIsReloadedOnce | webview/src/androidMain/kotlin/com/multiplatform/webview/web/AccompanistWebView.kt:421-460 | with an interceptor that always modifies, the first request is overridden and the replacement load is let through unoffered: exactly one `stopLoading`, `loadUrl` pair is issued |
| AndroidClient.ErrorsResetOnPageStart | webview/src/androidMain/kotlin/com/multiplatform/webview/web/AccompanistWebView.kt:294-295 | an error recorded for one request is gone when the next page starts |
| AndroidClient.FinishedPageIgnoresLateProgress | webview/src/androidMain/kotlin/com/multiplatform/webview/web/AccompanistWebView.kt:516-523 | after 100 for a URL, a later report for the same URL leaves Finished, and a report for another URL gives Loading |
| SslPinning.OnReceivedSslError | webview/src/androidMain/kotlin/com/multiplatform/webview/web/AccompanistWebView.kt:312-340 | the error goes to the base client exactly when it is not an ID mismatch with a handler; it proceeds only with a non-empty host list and a matching URL |
| SslPinning.OnReceivedSslErrorProceeds | webview/src/androidMain/kotlin/com/multiplatform/webview/web/AccompanistWebView.kt:320-333 | for an ID-mismatch error with a handler: it proceeds iff the URL is an optional `http://`/`https://`, an optional `[A-Za-z0-9_-]+.` label, a pinned host, and an optional `/…` path; it is cancelled iff not |
| SslPinning.MatchesIff | webview/src/androidMain/kotlin/com/multiplatform/webview/web/AccompanistWebView.kt:322-326 | the matcher accepts exactly the URLs that split into scheme, sub-domain label, host and path as the pattern says |
| SslPinning.SingleHost | webview/src/androidMain/kotlin/com/multiplatform/webview/web/AccompanistWebView.kt:322-325 | with one pinned host, host-then-path holds iff the text starts with the host and the rest is a path |
| SslPinning.SubdomainAndPathProceed | webview/src/androidMain/kotlin/com/multiplatform/webview/web/AccompanistWebView.kt:325-327 | `https://api.example.com/v1` proceeds for host `example.com` |
| SslPinning.DeeperSubdomainCancels | webview/src/androidMain/kotlin/com/multiplatform/webview/web/AccompanistWebView.kt:325-329 | `https://a.b.example.com` is cancelled: only one label may precede the host |
| SslPinning.LookAlikeHostCancels | webview/src/androidMain/kotlin/com/multiplatform/webview/web/AccompanistWebView.kt:325-329 | `https://example.com.evil.org` is cancelled |
| SslPinning.TrailingLineBreakCancels | webview/src/androidMain/kotlin/com/multiplatform/webview/web/AccompanistWebView.kt:325-329 | a URL ending in a line break is cancelled, because `.` matches no line terminator |
| IosDelegate.UrlString | webview/src/iosMain/kotlin/com/multiplatform/webview/web/WKNavigationDelegate.kt:101 | a present URL is its text and a missing one is `"null"` |
| Strings.ToInt32 | webview/src/iosMain/kotlin/com/multiplatform/webview/web/WKNavigationDelegate.kt:200 | the result is a 32-bit value congruent to the code modulo 2^32, and equal to it when it fits |
| IosDelegate.WKWebView.LoadRequest | webview/src/iosMain/kotlin/com/multiplatform/webview/web/WKNavigationDelegate.kt:86 | the request is appended to the view's loaded requests; the view's properties are unchanged |
| IosDelegate.CopyHeaderFields | webview/src/iosMain/kotlin/com/multiplatform/webview/web/WKNavigationDelegate.kt:224-227 | no header dictionary gives an empty map; otherwise the map built by storing the entries in order |
| IosDelegate.HeaderMap | webview/src/iosMain/kotlin/com/multiplatform/webview/web/WKNavigationDelegate.kt:224-227 | the map has at most one entry per header field, and the last field stored holds |
| IosDelegate.HeaderMapNames | webview/src/iosMain/kotlin/com/multiplatform/webview/web/WKNavigationDelegate.kt:224-227 | a name is in the map iff some header entry has that name |
| IosDelegate.HeaderMapLastWins | webview/src/iosMain/kotlin/com/multiplatform/webview/web/WKNavigationDelegate.kt:224-227 | an entry that no later entry overrides is in the map with its value |
| IosDelegate.HeaderMapCopiesAll | webview/src/iosMain/kotlin/com/multiplatform/webview/web/WKNavigationDelegate.kt:225-227 | with distinct header names, as a dictionary has, every field is copied with its value |
| IosDelegate.OfferedRequest | webview/src/iosMain/kotlin/com/multiplatform/webview/web/WKNavigationDelegate.kt:231-238 | the offered request has the action's URL, `isForMainFrame` true, `isRedirect` false, the method or `GET`, and every header field not overridden later |
| IosDelegate.WKNavigationDelegate.constructor | webview/src/iosMain/kotlin/com/multiplatform/webview/web/WKNavigationDelegate.kt:50-55 | the delegate is bound to its state and navigator, with the reload flag clear |
| IosDelegate.WKNavigationDelegate.CreateWebViewWithConfiguration | webview/src/iosMain/kotlin/com/multiplatform/webview/web/WKNavigationDelegate.kt:69-89 | no web view is returned; the request is loaded in the current view exactly when the target frame is the main frame |
| IosDelegate.WKNavigationDelegate.DidStartProvisionalNavigation | webview/src/iosMain/kotlin/com/multiplatform/webview/web/WKNavigationDelegate.kt:96-106 | Loading(0), no errors, `lastLoadedUrl` is the view's URL text; the title is kept |
| IosDelegate.WKNavigationDelegate.DidFinishNavigation | webview/src/iosMain/kotlin/com/multiplatform/webview/web/WKNavigationDelegate.kt:162-170 | title and URL from the view, Finished, history flags copied from the view; errors, commands and interceptor unchanged |
| IosDelegate.WKNavigationDelegate.DidFailProvisionalNavigation | webview/src/iosMain/kotlin/com/multiplatform/webview/web/WKNavigationDelegate.kt:190-207 | exactly one `WebViewError(code cut to 32 bits, description)` is appended; the load state, title and URL are unchanged |
| IosDelegate.WKNavigationDelegate.DecidePolicyForNavigationAction | webview/src/iosMain/kotlin/com/multiplatform/webview/web/WKNavigationDelegate.kt:209-267 | without a URL, during a reload, without an interceptor, or outside the main frame: Allow, not consulted, flag cleared, no command; otherwise the interceptor sees the offered request, Allow gives Allow, Reject gives Cancel, and Modify gives Cancel, sets the flag and logs `stopLoading` then `loadUrl` |
| IosDelegate.ModifiedNavigationIsReloadedOnce | webview/src/iosMain/kotlin/com/multiplatform/webview/web/WKNavigationDelegate.kt:218-260 | with an interceptor that always modifies, the first navigation is cancelled and replaced and the replacement is allowed unoffered: exactly one `stopLoading`, `loadUrl` pair |
| IosDelegate.SubFrameNavigationIsNotOffered | webview/src/iosMain/kotlin/com/multiplatform/webview/web/WKNavigationDelegate.kt:218-266 | a navigation not targeting the main frame is allowed without consulting even an interceptor that rejects everything |
| IosDelegate.TitleSurvivesNextNavigation | webview/src/iosMain/kotlin/com/multiplatform/webview/web/WKNavigationDelegate.kt:96-106 | when the next navigation starts, the previous errors are dropped but the title is kept |
| BuildConfig.LoadConfig | buildSrc/src/main/kotlin/Utils.kt:21-29 | the loaded table has exactly the non-blank keys of the properties, each with its value |
| BuildConfig.EvaluateCallables | buildSrc/src/main/kotlin/Utils.kt:33 | one pair per callable, in order, each computed from the table as loaded |
| BuildConfig.MergePairs | buildSrc/src/main/kotlin/Utils.kt:33-39 | the merged table is the loaded one with the pairs stored in order; `isChanged` holds iff some pair differed from the table when it was stored |
| BuildConfig.ApplyPairs | buildSrc/src/main/kotlin/Utils.kt:33-39 | storing the pairs loses no loaded key, and the pair stored last holds |
| BuildConfig.ApplyPairsKeys | buildSrc/src/main/kotlin/Utils.kt:33-39 | after the merge a key is present iff it was loaded or some pair names it |
| BuildConfig.ApplyPairsUntouched | buildSrc/src/main/kotlin/Utils.kt:33-39 | a loaded key no pair names keeps its loaded value |
| BuildConfig.ApplyPairsLastWins | buildSrc/src/main/kotlin/Utils.kt:33-39 | a key holds the value of the last pair naming it |
| BuildConfig.Changed | buildSrc/src/main/kotlin/Utils.kt:35-38 | a merge not marked changed leaves the table as loaded |
| BuildConfig.HeldPairsChangeNothing | buildSrc/src/main/kotlin/Utils.kt:35-38 | pairs the table already holds leave it unchanged and do not mark it changed |
| BuildConfig.UnchangedMeansHeld | buildSrc/src/main/kotlin/Utils.kt:33-39 | a merge is not marked changed iff the loaded table already holds every pair |
| BuildConfig.MergedTableHoldsPairs | buildSrc/src/main/kotlin/Utils.kt:33-39 | after merging pairs that never give a key two values, the table holds every pair |
| BuildConfig.RerunChangesNothing | buildSrc/src/main/kotlin/Utils.kt:33-44 | merging the same consistent pairs again changes nothing and is not marked changed |
| BuildConfig.ConflictingPairsAlwaysChange | buildSrc/src/main/kotlin/Utils.kt:35-38 | any two pairs giving one key different values mark every table changed, so such a file is rewritten on every run |
| BuildConfig.ConflictingPairsRestoreTable | buildSrc/src/main/kotlin/Utils.kt:33-39 | an example: `SETTING=b` then `SETTING=a` over a table holding `SETTING=a` is marked changed although the merged table equals the loaded one |
| BuildConfig.StringLessTransitive | buildSrc/src/main/kotlin/Utils.kt:59 | the key order is transitive |
| BuildConfig.StringLessTotal | buildSrc/src/main/kotlin/Utils.kt:59 | any two distinct keys are ordered one way or the other |
| BuildConfig.StringLessIrreflexive | buildSrc/src/main/kotlin/Utils.kt:59 | no key sorts before itself |
| BuildConfig.SortedKeys | buildSrc/src/main/kotlin/Utils.kt:58-59 | the table's keys, each once, in strictly ascending order |
| BuildConfig.WriteProperties | buildSrc/src/main/kotlin/Utils.kt:49-67 | the text written is the optional comment line and then the `key=value` lines in key order, with a line break after every line but the last |
| BuildConfig.PropertiesText | buildSrc/src/main/kotlin/Utils.kt:49-67 | the written text opens with the `# comment` line when there is one, and an empty table writes nothing else |
| BuildConfig.PropertiesTextLines | buildSrc/src/main/kotlin/Utils.kt:54-65 | read back line by line, the text is the `# comment` line if any, then one `key=value` line per entry with keys strictly ascending |
| BuildConfig.PropertiesTextEnd | buildSrc/src/main/kotlin/Utils.kt:60-65 | the text of a non-empty table does not end in a line break |
| BuildConfig.UpdateXcodeConfigFile | buildSrc/src/main/kotlin/Utils.kt:17-45 | the final table is the loaded non-blank entries (none for a missing file) merged with the callables' pairs; a text is written iff the table is non-empty and changed, and it is the sorted table without a comment |
| BuildConfig.SecondUpdateWritesNothing | buildSrc/src/main/kotlin/Utils.kt:17-45 | running the update again over the table it produced, with the same consistent non-blank pairs, writes nothing |
| BuildConfig.RereadTable | buildSrc/src/main/kotlin/Utils.kt:24-39 | the merged table loses no entry when loaded again, and merging the same pairs into it is not marked changed |
| BuildPlist.Unquote | buildSrc/src/main/kotlin/Utils.kt:205-206 | the unquoted text neither starts nor ends with `'` |
| BuildPlist.UnquoteSlice | buildSrc/src/main/kotlin/Utils.kt:205-206 | the unquoted name is one contiguous part of the text, and everything removed around it is a `"` or `'` |
| Strings.TrimSlice | buildSrc/src/main/kotlin/Utils.kt:205-206 | `trim(c)` keeps one contiguous part of the text and removes only copies of `c` before and after it |
| BuildPlist.UnquoteQuoted | buildSrc/src/main/kotlin/Utils.kt:204-206 | a name written in double quotes, in single quotes or without quotes reads as the name itself |
| Strings.TrimIdempotent | buildSrc/src/main/kotlin/Utils.kt:205-206 | trimming a character twice is trimming it once |
| Strings.ReplaceAllAbsent | buildSrc/src/main/kotlin/Utils.kt:208-212 | replacing text that does not occur leaves the string unchanged |
| Strings.ContainsIff | buildSrc/src/main/kotlin/Utils.kt:208 | `contains` holds iff the text occurs at some index |
| Strings.ReplaceCharRemoves | buildSrc/src/main/kotlin/Utils.kt:105 | `replace(" ", "")` removes every space and keeps every other character in order |
| BuildPlist.ConfigurationPlists | buildSrc/src/main/kotlin/Utils.kt:202-215 | the table holds each configuration name at most once |
| BuildPlist.ConfigurationPlistsNames | buildSrc/src/main/kotlin/Utils.kt:203-215 | a name has an entry iff some configuration found has that unquoted name |
| BuildPlist.ConfigurationPlistsFirstWins | buildSrc/src/main/kotlin/Utils.kt:205-214 | each entry is the unquoted name and placeholder-replaced path of the first configuration with that name |
| BuildPlist.CollectConfigurationPlists | buildSrc/src/main/kotlin/Utils.kt:198-215 | the scan loop builds exactly that first-wins table |
| BuildPlist.DedupValues | buildSrc/src/main/kotlin/Utils.kt:217-222 | the kept entries have distinct plist paths |
| BuildPlist.DedupValuesMembers | buildSrc/src/main/kotlin/Utils.kt:217-222 | a path is kept iff some entry has it |
| BuildPlist.DedupValuesFirst | buildSrc/src/main/kotlin/Utils.kt:217-222 | each kept entry is the first entry with its path |
| BuildPlist.DedupValuesOrder | buildSrc/src/main/kotlin/Utils.kt:217-223 | kept entries are in the order their paths first appear |
| BuildPlist.KeepFirstOfEachValue | buildSrc/src/main/kotlin/Utils.kt:217-222 | the `forEach` loop keeps exactly those entries |
| BuildPlist.PlistFilesCover | buildSrc/src/main/kotlin/Utils.kt:216-223 | the returned list has no duplicates and contains every configuration's path |
| BuildPlist.GetAllPlistFiles | buildSrc/src/main/kotlin/Utils.kt:197-224 | the returned list is the paths of the first-wins table, duplicates removed, first occurrence kept |
| BuildPlist.ProcessPlistFiles | buildSrc/src/main/kotlin/Utils.kt:96-193 | the writes and outcome are the run over the plists in order: a missing file ends with `"<module>/<plist> file not found"`, a declared storyboard or an ending edit stops, an edited text is written only when it differs |
| BuildPlist.ProcessFrom | buildSrc/src/main/kotlin/Utils.kt:96-193 | the run writes at most once per plist; it completes only if every plist file exists, and a missing one ends it with `"<path> file not found"` for that path |
| BuildPlist.PlistFilePathInjective | buildSrc/src/main/kotlin/Utils.kt:98 | distinct plists of one module have distinct file paths |
| BuildPlist.ProcessWritesChanges | buildSrc/src/main/kotlin/Utils.kt:187-189 | every write goes to the path of a listed plist that exists, and its text differs from the file's original text |
| BuildPlist.ProcessWritesOnce | buildSrc/src/main/kotlin/Utils.kt:97-189 | for distinct plists, no file is written twice |
| BuildPlist.StoryboardEndsProcessing | buildSrc/src/main/kotlin/Utils.kt:105-107 | a plist already naming a launch storyboard ends processing (the run does not complete), and only plists before it are written |
| BuildPlist.ProcessProject | buildSrc/src/main/kotlin/Utils.kt:91-195 | processing the project's plist list writes each file at most once, and only to change it |

## Left out

- File and directory I/O is not modelled. This covers reading and writing `.xcconfig` and
  plist files, creating a missing config file, `queryPlistFilesAndModuleName` and
  `getBuildRelativeDir`. File contents are inputs and written texts are outputs.
- Regular expressions: the `Pattern` scans of `getAllPlistFiles` and `processPlistFiles`
  are not modelled. Their results are inputs: the match groups, and the launch-screen
  edits of `Utils.kt:110-186` as a function.
- SslPinning.OnReceivedSslError: pinned hosts are matched literally. This agrees with the
  built pattern for hosts made of `[A-Za-z0-9_.-]` (dots are escaped). A host containing
  another regex metacharacter, such as `|` or `*`, is not given its regex meaning.
- `Properties.load` escapes, continuation lines and separators other than `=` are not
  modelled, and neither is UTF-8 encoding. A loaded file is the map it yields.
- BuildConfig.SecondUpdateWritesNothing: the second run reads the merged table itself
  rather than parsing the written text, so it relies on the properties round trip.
- BuildConfig.PropertiesTextLines: requires that no key, value or comment contains a line
  break, because escaping is not modelled.
- BuildConfig.PropertiesTextEnd: requires that no value contains a line break, for the
  same reason.
- Line breaks: `BufferedWriter.newLine` is fixed to `\n`, the platform line separator is
  not modelled.
- Key order: `sortedBy { it.key }` compares strings character by character. The model
  compares code points, not UTF-16 units; the two differ only for characters outside the
  Basic Multilingual Plane.
- JsBridge.StubScript: `trimIndent` is modelled as removing the template's fixed
  indentation. This is exact unless the bridge name or a key contains a line break, which
  the lemma excludes.
- JS execution is not modelled. Stubs are text, and their runtime behaviour (argument
  checks, `callNative`) is not given semantics.
- Floating-point progress: `Loading` carries the reported percentage instead of
  `newProgress / 100.0f`.
- The interceptor's navigator argument is not modelled; the interceptor is a decision on
  the request alone.
- The viewport and console scripts are not modelled. `onPageStarted`'s script is one log
  entry and `didCommitNavigation` is left out.
- Also left out: JS dialogs (`onJsAlert` and the iOS alert panel), the iOS authentication
  challenge (a coroutine on another dispatcher), the iOS scroll restore (UIKit),
  fullscreen custom views, the favicon callback, logging, and the Compose UI.
- Base-class calls (`super.onPageStarted`, `super.onPageFinished` and the like) are taken
  as the framework's defaults, which do nothing. Two defaults do work, and the model
  includes both. `super.onReceivedSslError` cancels the load; this is the `DeferToDefault`
  outcome. `super.onReceivedError(view, request, error)` hands a main-frame error to the
  deprecated callback this client overrides.
- AndroidClient.AccompanistWebViewClient.OnReceivedError: with a missing request or error
  nothing is handed to the deprecated callback. The framework's base method would
  dereference them, but the engine always supplies both.
- AndroidClient.AccompanistWebViewClient.ShouldOverrideUrlLoading: a null request is taken
  as not overridden. The base method it reaches would dereference the request and throw,
  but the engine always supplies one. For a present request the base method returns
  `false`, as modelled.
- IosDelegate.UrlString: a present `NSURL` is assumed to print as its absolute string.
- kotlinx.serialization of `JsMessage` is not modelled.
