/** The gateway's plugin contexts.

    `WebAppPluginContext` keeps the registered web-application plugin modules,
    validates what each module's `init()` returns and exposes the accepted
    (prefix, sub-application, global middlewares) triples.
    `HookPluginContext` is a set of stubs that do nothing. */
module GatewayPlugin {
  import opened Common
  import opened HookTypes

  /** The Python values a plugin's `init()` may hand back, as far as the
      context's checks can tell them apart. */
  datatype PyValue =
    | PyStr(s: string)
    /** An `aiohttp.web.Application`; it is a mapping, so iterating it yields its keys. */
    | PyApp(appId: nat, keys: seq<string>)
    | PyNone
    /** A tuple, list or other finite iterable, with the items it yields. */
    | PyIterable(items: seq<PyValue>)
    /** Any object that cannot be iterated (an int, a function, ...). */
    | PyObject(tag: nat)

  /** What awaiting `plugin_mod.init(cors_options)` does. The context's CORS
      options never change, so each module's outcome is fixed. */
  datatype PluginInit =
    | Returns(v: PyValue)
    /** The plugin raises ValueError or a subclass of it. */
    | RaisesValueError
    /** The plugin raises an exception that is neither ValueError nor a
        subclass of it; a ValueError is always `RaisesValueError`. */
    | Raises(exception: string)

  datatype PluginModule = PluginModule(name: string, init: PluginInit)

  datatype WebAppEntry = WebAppEntry(prefix: string, subapp: PyValue, globalMiddlewares: PyValue)

  /** The `RuntimeError('Webapp plugin protocol error: ...')` variants. */
  datatype ProtocolViolation = NotThreeTuple | BadPrefix | NotApplication | BadMiddlewares

  datatype InitError =
    | ProtocolError(violation: ProtocolViolation)
    /** `prefix, subapp, mw = v` on a value that is not iterable raises TypeError, which is not caught. */
    | UnpackTypeError
    /** An exception other than ValueError raised by the plugin itself propagates. */
    | PluginRaised(exception: string)

  datatype NotInitialized = NotInitialized

  predicate IsIterable(v: PyValue)
  {
    v.PyStr? || v.PyApp? || v.PyIterable?
  }

  /** The items a value yields when iterated. */
  function Items(v: PyValue): (items: seq<PyValue>)
    requires IsIterable(v)
  {
    match v
    case PyStr(s) => seq(|s|, i requires 0 <= i < |s| => PyStr([s[i]]))
    case PyApp(_, keys) => seq(|keys|, i requires 0 <= i < |keys| => PyStr(keys[i]))
    case PyIterable(items) => items
  }

  datatype Unpacked = Three(a: PyValue, b: PyValue, c: PyValue) | WrongCount | NotIterableValue

  /** Python's `a, b, c = v`. */
  function Unpack3(v: PyValue): (u: Unpacked)
    ensures u.NotIterableValue? <==> !IsIterable(v)
    ensures u.Three? <==> IsIterable(v) && |Items(v)| == 3
    ensures u.Three? ==> [u.a, u.b, u.c] == Items(v)
  {
    if !IsIterable(v) then NotIterableValue
    else
      var items := Items(v);
      if |items| == 3 then Three(items[0], items[1], items[2]) else WrongCount
  }

  /** The checks `init` applies to one plugin, in the source's order. The
      middleware check tests `subapp`, as written, not `global_middlewares`. */
  function CheckPlugin(o: PluginInit): Result<WebAppEntry, InitError>
  {
    match o
    case RaisesValueError => Err(ProtocolError(NotThreeTuple))
    case Raises(x) => Err(PluginRaised(x))
    case Returns(v) =>
      match Unpack3(v)
      case NotIterableValue => Err(UnpackTypeError)
      case WrongCount => Err(ProtocolError(NotThreeTuple))
      case Three(prefix, subapp, mw) =>
        if !prefix.PyStr? || |prefix.s| == 0 then Err(ProtocolError(BadPrefix))
        else if !subapp.PyApp? then Err(ProtocolError(NotApplication))
        else if mw != PyNone && !IsIterable(subapp) then Err(ProtocolError(BadMiddlewares))
        else Ok(WebAppEntry(prefix.s, subapp, mw))
  }

  /** An accepted plugin has a non-empty string prefix and an Application, and
      every rejection names the first check that failed. */
  lemma CheckPluginCharacterised(o: PluginInit)
    ensures CheckPlugin(o).Ok? <==>
      o.Returns? && Unpack3(o.v).Three? &&
      Unpack3(o.v).a.PyStr? && |Unpack3(o.v).a.s| > 0 && Unpack3(o.v).b.PyApp?
    ensures CheckPlugin(o).Ok? ==>
      CheckPlugin(o).value == WebAppEntry(Unpack3(o.v).a.s, Unpack3(o.v).b, Unpack3(o.v).c)
    ensures o.Returns? && !IsIterable(o.v) ==> CheckPlugin(o) == Err(UnpackTypeError)
    ensures o.Returns? && IsIterable(o.v) && |Items(o.v)| != 3 ==> CheckPlugin(o) == Err(ProtocolError(NotThreeTuple))
  {
  }

  /** Because `subapp` is already known to be an Application (which is
      iterable), the third check can never reject anything. */
  lemma MiddlewareCheckNeverFires(o: PluginInit)
    ensures CheckPlugin(o) != Err(ProtocolError(BadMiddlewares))
  {
  }

  /** So a non-iterable third value is accepted as it is. */
  lemma NonIterableMiddlewaresAccepted(prefix: string, app: PyValue, tag: nat)
    requires |prefix| > 0 && app.PyApp?
    ensures CheckPlugin(Returns(PyIterable([PyStr(prefix), app, PyObject(tag)])))
            == Ok(WebAppEntry(prefix, app, PyObject(tag)))
  {
  }

  /** What the loop of `init` produces: the entries of the plugins accepted
      before the first rejection, and that rejection if there is one. */
  datatype InitRun = InitRun(accepted: seq<WebAppEntry>, failure: Option<InitError>)

  function RunInit(ps: seq<PluginModule>): (r: InitRun)
    ensures |r.accepted| <= |ps|
    ensures forall j :: 0 <= j < |r.accepted| ==> CheckPlugin(ps[j].init) == Ok(r.accepted[j])
    ensures r.failure.None? ==> |r.accepted| == |ps|
    ensures r.failure.Some? ==>
      |r.accepted| < |ps| && CheckPlugin(ps[|r.accepted|].init) == Err(r.failure.value)
  {
    if ps == [] then InitRun([], None)
    else
      match CheckPlugin(ps[0].init)
      case Err(e) => InitRun([], Some(e))
      case Ok(entry) =>
        var rest := RunInit(ps[1..]);
        InitRun([entry] + rest.accepted, rest.failure)
  }

  /** `init` succeeds exactly when every registered plugin passes the checks. */
  lemma {:induction false} RunInitSucceedsIff(ps: seq<PluginModule>)
    ensures RunInit(ps).failure.None? <==> forall i :: 0 <= i < |ps| ==> CheckPlugin(ps[i].init).Ok?
  {
    var r := RunInit(ps);
    if r.failure.Some? {
      assert CheckPlugin(ps[|r.accepted|].init).Err?;
    }
  }

  /** The first rejected plugin fixes `RunInit`'s result. */
  lemma AcceptedPrefix(ps: seq<PluginModule>, i: nat)
    requires i < |ps|
    requires forall j :: 0 <= j < i ==> CheckPlugin(ps[j].init).Ok?
    requires CheckPlugin(ps[i].init).Err?
    ensures |RunInit(ps).accepted| == i
    ensures RunInit(ps).failure == Some(CheckPlugin(ps[i].init).error)
  {
  }

  /** Entries that the checks accepted, one per plugin up to the first
      rejection or the end, are exactly what `RunInit` reports. */
  lemma {:induction false} RunInitFromChecks(ps: seq<PluginModule>, acc: seq<WebAppEntry>)
    requires |acc| <= |ps|
    requires forall j :: 0 <= j < |acc| ==> CheckPlugin(ps[j].init) == Ok(acc[j])
    requires |acc| < |ps| ==> CheckPlugin(ps[|acc|].init).Err?
    ensures RunInit(ps).accepted == acc
    ensures RunInit(ps).failure == if |acc| == |ps| then None else Some(CheckPlugin(ps[|acc|].init).error)
  {
    if ps != [] {
      if acc == [] {
        assert CheckPlugin(ps[0].init).Err?;
      } else {
        assert CheckPlugin(ps[0].init) == Ok(acc[0]);
        RunInitFromChecks(ps[1..], acc[1..]);
        assert acc == [acc[0]] + acc[1..];
      }
    }
  }

  class WebAppPluginContext {
    var plugins: seq<PluginModule>
    var initialized: bool
    const corsOptions: map<string, string>
    var webapps: seq<WebAppEntry>

    constructor (cors: map<string, string>)
      ensures plugins == [] && !initialized && webapps == [] && corsOptions == cors
    {
      plugins := [];
      initialized := false;
      corsOptions := cors;
      webapps := [];
    }

    /** `add_plugin` appends the module and changes nothing else. */
    method AddPlugin(m: PluginModule)
      modifies this`plugins
      ensures plugins == old(plugins) + [m]
    {
      plugins := plugins + [m];
    }

    /** `init` walks the plugins in registration order, appending one entry per
        accepted plugin; a rejection aborts with the entries appended so far
        left in place and the flag untouched. */
    method Init() returns (failure: Option<InitError>)
      modifies this`webapps, this`initialized
      ensures failure == RunInit(plugins).failure
      ensures webapps == old(webapps) + RunInit(plugins).accepted
      ensures initialized == (if failure.None? then true else old(initialized))
    {
      ghost var acc: seq<WebAppEntry> := [];
      var i := 0;
      while i < |plugins|
        invariant 0 <= i <= |plugins|
        invariant |acc| == i
        invariant forall j :: 0 <= j < i ==> CheckPlugin(plugins[j].init) == Ok(acc[j])
        invariant webapps == old(webapps) + acc
        invariant initialized == old(initialized)
      {
        var checked := CheckPlugin(plugins[i].init);
        if checked.Err? {
          failure := Some(checked.error);
          RunInitFromChecks(plugins, acc);
          return;
        }
        webapps := webapps + [checked.value];
        acc := acc + [checked.value];
        i := i + 1;
      }
      RunInitFromChecks(plugins, acc);
      initialized := true;
      failure := None;
    }

    /** `list(enumerate_apps())`: the first advance of the generator raises
        when the context is not initialised; otherwise it yields `webapps`. */
    method EnumerateApps() returns (r: Result<seq<WebAppEntry>, NotInitialized>)
      ensures r.Err? <==> !initialized
      ensures r.Ok? ==> r.value == webapps
    {
      if !initialized {
        return Err(NotInitialized);
      }
      return Ok(webapps);
    }
  }

  /** `HookPluginContext`: `init`, `shutdown` and `dispatch_event` have empty
      bodies, so they keep no state and return None. */
  class HookPluginContext {
    constructor ()
    {
    }

    method Init()
    {
    }

    method Shutdown()
    {
    }

    method DispatchEvent<A>(eventType: HookEventType, eventArgs: A) returns (r: Option<HookResult>)
      ensures r == None
    {
      r := None;
    }
  }
}
