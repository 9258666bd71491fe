/** The JS bridge: the message envelope script sends to native code, the registry of
  * native handlers keyed by method name, dispatch of a message to its handler, and the
  * script stub generated for each registered handler.
  */
module JsBridge {
  import opened Strings
  import opened WebState

  /** The envelope of a call from script: `params` is JSON text and defaults to "". */
  datatype JsMessage = JsMessage(callbackId: Int32, methodName: string, params: string)

  /** A message built without explicit parameters, as the data class's default does. */
  function MessageWithoutParams(callbackId: Int32, methodName: string): (m: JsMessage)
    ensures m.callbackId == callbackId && m.methodName == methodName && m.params == ""
  {
    JsMessage(callbackId, methodName, "")
  }

  /** A registered native handler. `instance` tells apart handler objects that report the
    * same method name; the other fields are what `IJsMessageHandler` reports. */
  datatype Handler = Handler(
    instance: nat,
    methodName: string,
    minimalParamCount: Int32,
    methodParamCount: Int32)

  /** One call of `handler.handle(message, navigator, callback)`. */
  datatype Invocation<Callback> = Invocation(
    handler: Handler,
    message: JsMessage,
    navigator: Option<WebViewNavigator>,
    callback: Callback)

  // ---------------------------------------------------------------------------
  // Script stub text
  // ---------------------------------------------------------------------------

  /** The object-literal entry for argument `i`: `'key<i>': args[<i>]`. */
  function KeyEntry(i: nat): string
  {
    "'key" + (NatToString(i) + ("': args[" + (NatToString(i) + "]")))
  }

  /** The entries of the parameter object for a handler taking `n` parameters
    * (`List(n) { "'key$it': args[$it]" }`). */
  function KeyEntries(n: nat): (entries: seq<string>)
    ensures |entries| == n
    ensures forall i :: 0 <= i < n ==> entries[i] == KeyEntry(i)
  {
    if n == 0 then [] else KeyEntries(n - 1) + [KeyEntry(n - 1)]
  }

  /** Distinct argument positions get distinct keys, so the parameter object has
    * exactly `n` keys. */
  lemma KeyEntryInjective(i: nat, j: nat)
    requires KeyEntry(i) == KeyEntry(j)
    ensures i == j
  {
    var p, t := "'key", "': args[";
    var ti, tj := t + (NatToString(i) + "]"), t + (NatToString(j) + "]");
    assert NatToString(i) == IntToString(i) && NatToString(j) == IntToString(j);
    CancelPrefix(p, IntToString(i) + ti, IntToString(j) + tj);
    assert ti[0] == '\'' && tj[0] == '\'';
    IntToStringPrefixFree(i, j, ti, tj);
  }

  /** `window.<bridge>.<key> = function (...args) {` */
  function HeaderLine(bridge: string, key: string): string
  {
    "window." + bridge + "." + key + " = function (...args) {"
  }

  /** The argument-count check against `[min, max]`. */
  function GuardLine(min: Int32, max: nat): string
  {
    "    if (args.length >= " + (IntToString(min as int) + (" && args.length <= " + (IntToString(max) + ") {")))
  }

  /** More than one argument is packed into an object keyed `key0`...`key<max-1>`;
    * otherwise the first argument is passed as it is. */
  function ParamsLine(max: nat): string
  {
    "        const params = " + ("args.length > 1 ? { " + (Join(", ", KeyEntries(max)) + " } : args[0];"))
  }

  /** The call into native code under the handler's key. */
  function CallLine(bridge: string, key: string): string
  {
    "        window." + bridge + ".callNative('" + key + "', params);"
  }

  /** The console error logged when the argument count is outside the bounds. */
  function ErrorLine(key: string): string
  {
    "        console.error(" + "'Invalid number of arguments for " + key + "');"
  }

  /** The lines of the stub for handler `key` on bridge object `bridge`, after the
    * common indentation of the template is removed: eight lines, none of which breaks
    * when the bridge name and the key do not. */
  function StubLines(bridge: string, key: string, min: Int32, max: nat): (lines: seq<string>)
    ensures |lines| == 8
    ensures '\n' !in bridge && '\n' !in key ==> forall k :: 0 <= k < |lines| ==> '\n' !in lines[k]
  {
    var lines :=
      [ HeaderLine(bridge, key),
        GuardLine(min, max),
        ParamsLine(max),
        CallLine(bridge, key),
        "    } else {",
        ErrorLine(key),
        "    }",
        "};" ];
    if '\n' in bridge || '\n' in key then lines
    else
      NoLineBreakInLines(bridge, key, min, max);
      lines
  }

  /** The script evaluated for one registered handler. Split at line breaks it gives
    * back its lines, as long as the bridge name and the key have no line break. */
  function StubScript(bridge: string, key: string, min: Int32, max: nat): (script: string)
    ensures '\n' !in bridge && '\n' !in key ==> Split('\n', script) == StubLines(bridge, key, min, max)
  {
    var lines := StubLines(bridge, key, min, max);
    if '\n' in bridge || '\n' in key then Join("\n", lines)
    else
      SplitJoin('\n', lines);
      Join("\n", lines)
  }

  lemma {:induction false} JoinAvoids(c: char, sep: string, parts: seq<string>)
    requires c !in sep
    requires forall k :: 0 <= k < |parts| ==> c !in parts[k]
    ensures c !in Join(sep, parts)
  {
    if |parts| > 1 {
      JoinAvoids(c, sep, parts[1..]);
    }
  }

  lemma NoLineBreakInNumber(x: int)
    ensures '\n' !in IntToString(x)
  {
    IntToStringShape(x);
    var s := IntToString(x);
    forall k | 0 <= k < |s| ensures s[k] != '\n' {
      assert k == 0 || IsDigit(s[k]);
    }
  }

  lemma NoLineBreakInParams(max: nat)
    ensures '\n' !in ParamsLine(max)
  {
    var entries := KeyEntries(max);
    forall k | 0 <= k < |entries| ensures '\n' !in entries[k] {
      NoLineBreakInKeyEntry(k);
    }
    JoinAvoids('\n', ", ", entries);
    NoLineBreakInParamsText();
  }

  lemma NoLineBreakInParamsText()
    ensures '\n' !in "        const params = "
    ensures '\n' !in "args.length > 1 ? { "
    ensures '\n' !in " } : args[0];"
  {
  }

  lemma NoLineBreakInKeyEntry(i: nat)
    ensures '\n' !in KeyEntry(i)
  {
  }

  lemma NoLineBreakInNamedLines(bridge: string, key: string)
    requires '\n' !in bridge && '\n' !in key
    ensures '\n' !in HeaderLine(bridge, key) && '\n' !in CallLine(bridge, key)
  {
  }

  lemma NoLineBreakInErrorLine(key: string)
    requires '\n' !in key
    ensures '\n' !in ErrorLine(key)
  {
  }

  lemma NoLineBreakInGuard(min: Int32, max: nat)
    ensures '\n' !in GuardLine(min, max)
  {
    NoLineBreakInNumber(min as int);
    NoLineBreakInNumber(max);
  }

  lemma NoLineBreakInLines(bridge: string, key: string, min: Int32, max: nat)
    requires '\n' !in bridge && '\n' !in key
    ensures '\n' !in HeaderLine(bridge, key) && '\n' !in CallLine(bridge, key) && '\n' !in ErrorLine(key)
    ensures '\n' !in GuardLine(min, max) && '\n' !in ParamsLine(max)
  {
    NoLineBreakInNamedLines(bridge, key);
    NoLineBreakInErrorLine(key);
    NoLineBreakInGuard(min, max);
    NoLineBreakInParams(max);
  }

  lemma ErrorLineInjective(k1: string, k2: string)
    requires ErrorLine(k1) == ErrorLine(k2)
    ensures k1 == k2
  {
    var p := "        console.error(" + "'Invalid number of arguments for ";
    assert ErrorLine(k1) == p + (k1 + "');");
    assert ErrorLine(k2) == p + (k2 + "');");
    CancelPrefix(p, k1 + "');", k2 + "');");
    CancelSuffix(k1, k2, "');");
  }

  lemma HeaderLineInjective(b1: string, b2: string, key: string)
    requires HeaderLine(b1, key) == HeaderLine(b2, key)
    ensures b1 == b2
  {
    var t := "." + key + " = function (...args) {";
    assert HeaderLine(b1, key) == "window." + (b1 + t);
    assert HeaderLine(b2, key) == "window." + (b2 + t);
    CancelPrefix("window.", b1 + t, b2 + t);
    CancelSuffix(b1, b2, t);
  }

  lemma UpperBoundInjective(max1: nat, max2: nat)
    requires " && args.length <= " + (IntToString(max1) + ") {") == " && args.length <= " + (IntToString(max2) + ") {")
    ensures max1 == max2
  {
    CancelPrefix(" && args.length <= ", IntToString(max1) + ") {", IntToString(max2) + ") {");
    IntToStringPrefixFree(max1, max2, ") {", ") {");
  }

  lemma GuardLineInjective(min1: Int32, max1: nat, min2: Int32, max2: nat)
    requires GuardLine(min1, max1) == GuardLine(min2, max2)
    ensures min1 == min2 && max1 == max2
  {
    var p := "    if (args.length >= ";
    var r1 := " && args.length <= " + (IntToString(max1) + ") {");
    var r2 := " && args.length <= " + (IntToString(max2) + ") {");
    CancelPrefix(p, IntToString(min1 as int) + r1, IntToString(min2 as int) + r2);
    IntToStringPrefixFree(min1 as int, min2 as int, r1, r2);
    UpperBoundInjective(max1, max2);
  }

  /** The stub text determines the handler it was made for: the bridge name, the key and
    * both bounds of the argument-count check can be read back from it. */
  lemma StubScriptInjective(b1: string, k1: string, min1: Int32, max1: nat,
                            b2: string, k2: string, min2: Int32, max2: nat)
    requires '\n' !in b1 && '\n' !in k1 && '\n' !in b2 && '\n' !in k2
    requires StubScript(b1, k1, min1, max1) == StubScript(b2, k2, min2, max2)
    ensures b1 == b2 && k1 == k2 && min1 == min2 && max1 == max2
  {
    var l1, l2 := StubLines(b1, k1, min1, max1), StubLines(b2, k2, min2, max2);
    assert l1 == l2;
    assert l1[5] == l2[5];
    ErrorLineInjective(k1, k2);
    assert l1[0] == l2[0];
    HeaderLineInjective(b1, b2, k1);
    assert l1[1] == l2[1];
    GuardLineInjective(min1, max1, min2, max2);
  }

  // ---------------------------------------------------------------------------
  // The handler registry
  // ---------------------------------------------------------------------------

  /** `keys` without `k`, in order. */
  function Without(keys: seq<string>, k: string): (r: seq<string>)
    ensures forall x :: x in r <==> x in keys && x != k
    ensures |r| <= |keys|
  {
    if keys == [] then []
    else (if keys[0] == k then [] else [keys[0]]) + Without(keys[1..], k)
  }

  predicate Distinct(keys: seq<string>) {
    forall i, j :: 0 <= i < j < |keys| ==> keys[i] != keys[j]
  }

  lemma {:induction false} WithoutDistinct(keys: seq<string>, k: string)
    requires Distinct(keys)
    ensures Distinct(Without(keys, k))
  {
    if keys != [] {
      WithoutDistinct(keys[1..], k);
      assert keys[0] !in keys[1..];
    }
  }

  lemma {:induction false} DistinctCardinality(keys: seq<string>)
    requires Distinct(keys)
    ensures |set x | x in keys| == |keys|
  {
    if keys != [] {
      DistinctCardinality(keys[1..]);
      assert (set x | x in keys) == {keys[0]} + (set x | x in keys[1..]);
      assert keys[0] !in keys[1..];
    }
  }

  /** Every key is registered with a parameter count the stub template accepts. */
  predicate Stubbable(keys: seq<string>, handlers: map<string, Handler>) {
    forall i :: 0 <= i < |keys| ==> keys[i] in handlers && handlers[keys[i]].methodParamCount >= 0
  }

  /** The stubs for `keys`, in order, each built from the handler registered under it. */
  function Stubs(bridge: string, keys: seq<string>, handlers: map<string, Handler>): (r: seq<string>)
    requires Stubbable(keys, handlers)
    ensures |r| == |keys|
  {
    if keys == [] then []
    else
      var last := handlers[keys[|keys| - 1]];
      Stubs(bridge, keys[..|keys| - 1], handlers)
        + [StubScript(bridge, keys[|keys| - 1], last.minimalParamCount, last.methodParamCount as nat)]
  }

  /** The `i`-th stub is the script for the `i`-th key and its handler. */
  lemma {:induction false} StubsAt(bridge: string, keys: seq<string>, handlers: map<string, Handler>, i: nat)
    requires Stubbable(keys, handlers) && i < |keys|
    ensures var h := handlers[keys[i]];
      Stubs(bridge, keys, handlers)[i] == StubScript(bridge, keys[i], h.minimalParamCount, h.methodParamCount as nat)
  {
    if i < |keys| - 1 {
      assert Stubbable(keys[..|keys| - 1], handlers);
      StubsAt(bridge, keys[..|keys| - 1], handlers, i);
      assert keys[..|keys| - 1][i] == keys[i];
    }
  }

  /** One more stubbable key extends the stubs by that key's script. */
  lemma StubsSnoc(bridge: string, keys: seq<string>, handlers: map<string, Handler>, i: nat)
    requires i < |keys| && Stubbable(keys[..i], handlers)
    requires keys[i] in handlers && handlers[keys[i]].methodParamCount >= 0
    ensures Stubbable(keys[..i + 1], handlers)
    ensures var h := handlers[keys[i]];
      Stubs(bridge, keys[..i + 1], handlers)
        == Stubs(bridge, keys[..i], handlers) + [StubScript(bridge, keys[i], h.minimalParamCount, h.methodParamCount as nat)]
  {
    assert keys[..i + 1][..i] == keys[..i];
  }

  /** The native side's registry of handlers (`JsMessageDispatcher`). The map is a Kotlin
    * `LinkedHashMap`, so besides the entries the model keeps the order in which keys were
    * first inserted: it is the order in which stubs are generated. */
  class JsMessageDispatcher {
    var jsHandlerMap: map<string, Handler>
    var insertionOrder: seq<string>

    /** The keys in iteration order are exactly the keys of the map, each once, and every
      * handler is stored under its own method name. */
    ghost predicate Valid()
      reads this
    {
      && Distinct(insertionOrder)
      && (forall k :: k in jsHandlerMap <==> k in insertionOrder)
      && (forall k :: k in jsHandlerMap ==> jsHandlerMap[k].methodName == k)
    }

    constructor ()
      ensures Valid() && jsHandlerMap == map[] && insertionOrder == []
    {
      jsHandlerMap := map[];
      insertionOrder := [];
    }

    /** `canHandle(id)`: some handler is registered under `id`. */
    function CanHandle(id: string): (r: bool)
      reads this
      ensures r <==> id in jsHandlerMap
    {
      id in jsHandlerMap
    }

    /** Stores `handler` under its method name, replacing any handler stored there; a
      * replaced key keeps its place in iteration order, a new key goes last. */
    method RegisterJSHandler(handler: Handler)
      requires Valid()
      modifies this
      ensures Valid()
      ensures handler.methodName in jsHandlerMap && jsHandlerMap[handler.methodName] == handler
      ensures forall k :: k != handler.methodName ==>
        (k in jsHandlerMap <==> k in old(jsHandlerMap)) &&
        (k in jsHandlerMap ==> jsHandlerMap[k] == old(jsHandlerMap)[k])
      ensures insertionOrder ==
        if handler.methodName in old(jsHandlerMap) then old(insertionOrder)
        else old(insertionOrder) + [handler.methodName]
    {
      if handler.methodName !in jsHandlerMap {
        insertionOrder := insertionOrder + [handler.methodName];
      }
      jsHandlerMap := jsHandlerMap[handler.methodName := handler];
    }

    /** Removes whatever is stored under the handler's method name, even if it is another
      * handler object; nothing happens if the name is not registered. */
    method UnregisterJSHandler(handler: Handler)
      requires Valid()
      modifies this
      ensures Valid()
      ensures handler.methodName !in jsHandlerMap
      ensures forall k :: k != handler.methodName ==>
        (k in jsHandlerMap <==> k in old(jsHandlerMap)) &&
        (k in jsHandlerMap ==> jsHandlerMap[k] == old(jsHandlerMap)[k])
      ensures handler.methodName !in old(jsHandlerMap) ==>
        jsHandlerMap == old(jsHandlerMap) && insertionOrder == old(insertionOrder)
      ensures insertionOrder == Without(old(insertionOrder), handler.methodName)
    {
      WithoutDistinct(insertionOrder, handler.methodName);
      if handler.methodName !in insertionOrder {
        assert Without(insertionOrder, handler.methodName) == insertionOrder by {
          WithoutAbsent(insertionOrder, handler.methodName);
        }
      }
      jsHandlerMap := jsHandlerMap - {handler.methodName};
      insertionOrder := Without(insertionOrder, handler.methodName);
    }

    /** Removes every handler. */
    method Clear()
      requires Valid()
      modifies this
      ensures Valid()
      ensures jsHandlerMap == map[] && insertionOrder == []
      ensures forall id :: !CanHandle(id)
    {
      jsHandlerMap := map[];
      insertionOrder := [];
    }

    /** Hands `message` to the handler registered under its method name, with the same
      * navigator and callback; with no such handler nothing is invoked. The registry is
      * not changed. */
    method Dispatch<Callback>(message: JsMessage, navigator: Option<WebViewNavigator>, callback: Callback)
      returns (invoked: Option<Invocation<Callback>>)
      requires Valid()
      ensures invoked.Some? <==> message.methodName in jsHandlerMap
      ensures invoked.Some? ==>
        && invoked.value.handler == jsHandlerMap[message.methodName]
        && invoked.value.handler.methodName == message.methodName
        && invoked.value.message == message
        && invoked.value.navigator == navigator
        && invoked.value.callback == callback
    {
      if message.methodName in jsHandlerMap {
        invoked := Some(Invocation(jsHandlerMap[message.methodName], message, navigator, callback));
      } else {
        invoked := None;
      }
    }

    /** `postWebviewDelegateMethod`: evaluates one stub per registered handler, in
      * iteration order, when a web view is attached. Building the parameter list of a
      * handler whose parameter count is negative throws, which ends the loop; without a
      * web view no stub text is built and nothing is evaluated. */
    method PostWebviewDelegateMethod(webViewAttached: bool, jsBridgeName: string)
      returns (evaluated: seq<string>, failed: bool)
      requires Valid()
      ensures !webViewAttached ==> evaluated == [] && !failed
      ensures |evaluated| <= |insertionOrder|
      ensures Stubbable(insertionOrder[..|evaluated|], jsHandlerMap)
      ensures evaluated == Stubs(jsBridgeName, insertionOrder[..|evaluated|], jsHandlerMap)
      ensures failed <==> (webViewAttached &&
        exists i :: 0 <= i < |insertionOrder| && jsHandlerMap[insertionOrder[i]].methodParamCount < 0)
      ensures failed ==> (|evaluated| < |insertionOrder| &&
        jsHandlerMap[insertionOrder[|evaluated|]].methodParamCount < 0)
      ensures webViewAttached && !failed ==> |evaluated| == |insertionOrder| == |jsHandlerMap|
    {
      evaluated, failed := [], false;
      if !webViewAttached {
        // Every iteration's safe call on the missing web view does nothing.
        return;
      }
      var keys, handlers := insertionOrder, jsHandlerMap;
      OrderedKeysRegistered();
      var i := 0;
      while i < |keys| && !failed
        invariant 0 <= i <= |keys|
        invariant !failed ==> |evaluated| == i
        invariant failed ==> |evaluated| < i && handlers[keys[|evaluated|]].methodParamCount < 0
        invariant Stubbable(keys[..|evaluated|], handlers)
        invariant evaluated == Stubs(jsBridgeName, keys[..|evaluated|], handlers)
      {
        var key := keys[i];
        var handler := handlers[key];
        if handler.methodParamCount < 0 {
          assert keys[|evaluated|] == key;
          failed := true;
        } else {
          StubsSnoc(jsBridgeName, keys, handlers, i);
          evaluated := evaluated + [StubScript(jsBridgeName, key, handler.minimalParamCount, handler.methodParamCount as nat)];
        }
        i := i + 1;
      }
      if !failed {
        assert keys[..|evaluated|] == keys;
        OrderCoversMap();
      }
    }

    /** Every key in iteration order is registered. */
    lemma OrderedKeysRegistered()
      requires Valid()
      ensures forall j :: 0 <= j < |insertionOrder| ==> insertionOrder[j] in jsHandlerMap
    {
    }

    /** Every key is listed exactly once in iteration order. */
    lemma OrderCoversMap()
      requires Valid()
      ensures |insertionOrder| == |jsHandlerMap|
    {
      DistinctCardinality(insertionOrder);
      assert jsHandlerMap.Keys == set x | x in insertionOrder;
    }
  }

  lemma {:induction false} WithoutAbsent(keys: seq<string>, k: string)
    requires k !in keys
    ensures Without(keys, k) == keys
  {
    if keys != [] {
      WithoutAbsent(keys[1..], k);
      assert keys == [keys[0]] + keys[1..];
    }
  }

  // ---------------------------------------------------------------------------
  // Scenarios relating several operations
  // ---------------------------------------------------------------------------

  /** Registering two handlers under one name leaves only the second active: a message
    * for that name reaches the second handler. */
  method ReplacedHandlerReceivesMessage(first: Handler, second: Handler, message: JsMessage)
    returns (invoked: Option<Invocation<int>>)
    requires first.methodName == second.methodName == message.methodName
    ensures invoked == Some(Invocation(second, message, None, 0))
  {
    var dispatcher := new JsMessageDispatcher();
    dispatcher.RegisterJSHandler(first);
    dispatcher.RegisterJSHandler(second);
    invoked := dispatcher.Dispatch(message, None, 0);
  }

  /** Unregistering any handler object that reports a registered name removes the
    * registered handler, and messages for that name are then dropped. */
  method UnregisterByNameDropsMessages(registered: Handler, other: Handler, message: JsMessage)
    returns (canHandle: bool, invoked: Option<Invocation<int>>)
    requires registered.methodName == other.methodName == message.methodName
    ensures !canHandle && invoked == None
  {
    var dispatcher := new JsMessageDispatcher();
    dispatcher.RegisterJSHandler(registered);
    dispatcher.UnregisterJSHandler(other);
    canHandle := dispatcher.CanHandle(message.methodName);
    invoked := dispatcher.Dispatch(message, None, 0);
  }
}
