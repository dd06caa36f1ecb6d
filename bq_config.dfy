/**
 * CreateDestination of bigquery/config.go: a destination described by
 * layers separated by '|', each `type:key=value,...`.  A "bigquery" (or
 * "bq") layer starts a new chain, "parallel" wraps the chain built so far
 * without building it, and "batch" builds the chain so far at once and
 * wraps the result.  Blank layers and unknown layer types are skipped.
 *
 * The closure held in `lastLayer` is the datatype Recipe; calling it is
 * Build.  Constructing the BigQuery client and parsing a duration are
 * calls into other packages and are parameters (a Runtime).
 */
module BqConfig {
  import opened Wrappers
  import opened Text
  import opened Clock

  const ErrLayerForm: string := "eventkit destination parameters should be defined in the form type:param=value,..."
  const ErrParamForm: string := "eventkit destination parameters should be defined in param2=value2 format"
  const ErrNoDestination: string := "No evenkit destinatino is defined"
  /** The runtime's panic for make(chan T, n) with a negative n. */
  const ErrChanSize: string := "makechan: size out of range"

  function ErrBigQueryKey(key: GoString): string
  {
    "Unknown parameter for bigquery destination " + key + ". Please use appName/project/dataset"
  }

  function ErrWorkers(value: GoString): string
  {
    "workers parameter of parallel destination should be a number and not " + value
  }

  /** The message names the value, not the key. */
  function ErrParallelKey(value: GoString): string
  {
    "Unknown parameter for parallel destination " + value + ". Please use appName/project/dataset"
  }

  function ErrNumber(key: GoString, value: GoString): string
  {
    key + " parameter of batch destination should be a number and not " + value
  }

  function ErrFlushInterval(value: GoString): string
  {
    "flushInterval parameter of batch destination should be a duration and not " + value
  }

  function ErrBatchKey(key: GoString): string
  {
    "Unknown parameter for batch destination " + key + ". Please use queueSize/batchSize/flushInterval"
  }

  datatype BqParams = BqParams(appName: GoString, project: GoString, dataset: GoString, credentialsPath: GoString)

  const NoBqParams := BqParams([], [], [], [])

  datatype BatchParams = BatchParams(queueSize: int64, batchSize: int64, flushInterval: Duration)

  const NoBatchParams := BatchParams(0, 0, 0)

  /** What a `lastLayer` closure builds when called. */
  datatype Recipe =
    | BigQueryLayer(bq: BqParams)
    | ParallelLayer(previous: Option<Recipe>, workers: int64)
    | BatchLayer(target: Destination, batch: BatchParams)

  /** A built destination; a parallel one keeps the recipe of its workers' destination, unbuilt. */
  datatype Destination =
    | BigQueryDestination(appName: GoString, project: GoString, dataset: GoString, credentialsFile: Option<GoString>)
    | Parallel(newDestination: Option<Recipe>, workers: int64)
    | BatchQueue(target: Destination, batch: BatchParams)

  /** time.ParseDuration, and NewBigQueryDestination's error (None when the client is created). */
  datatype Runtime = Runtime(parseDuration: GoString -> Option<Duration>, connect: BqParams -> Option<string>)

  /** Calling the closure. */
  function Build(r: Recipe, rt: Runtime): Outcome<Result<Destination>>
  {
    match r
    case BigQueryLayer(p) =>
      (match rt.connect(p)
       case Some(e) => Returns(Err(e))
       case None =>
         Returns(Ok(BigQueryDestination(p.appName, p.project, p.dataset, if p.credentialsPath != [] then Some(p.credentialsPath) else None))))
    case ParallelLayer(previous, workers) => Returns(Ok(Parallel(previous, workers)))
    case BatchLayer(target, batch) =>
      // NewBatchQueue makes its submit channel with queueSize as capacity.
      if batch.queueSize < 0 then Panics(ErrChanSize) else Returns(Ok(BatchQueue(target, batch)))
  }

  // ---------------------------------------------------------- parameters

  /** One `key=value` of a bigquery layer. */
  function BqParam(param: GoString, acc: BqParams): Result<BqParams>
  {
    match Cut(param, '=')
    case None => Err(ErrParamForm)
    case Some((key, value)) =>
      if key == "appName" then Ok(acc.(appName := value))
      else if key == "project" then Ok(acc.(project := value))
      else if key == "dataset" then Ok(acc.(dataset := value))
      else if key == "credentialsPath" then Ok(acc.(credentialsPath := value))
      else Err(ErrBigQueryKey(key))
  }

  /** The parameters of a bigquery layer, left to right, the first error ending it. */
  function BqParamsFrom(params: seq<GoString>, acc: BqParams): Result<BqParams>
    decreases |params|
  {
    if params == [] then Ok(acc)
    else match BqParam(params[0], acc)
      case Err(e) => Err(e)
      case Ok(next) => BqParamsFrom(params[1..], next)
  }

  function WorkersParam(param: GoString, workers: int64): Result<int64>
  {
    match Cut(param, '=')
    case None => Err(ErrParamForm)
    case Some((key, value)) =>
      if key == "workers" then
        match Atoi(value)
        case None => Err(ErrWorkers(value))
        case Some(n) => Ok(n)
      else Err(ErrParallelKey(value))
  }

  function WorkersFrom(params: seq<GoString>, workers: int64): Result<int64>
    decreases |params|
  {
    if params == [] then Ok(workers)
    else match WorkersParam(params[0], workers)
      case Err(e) => Err(e)
      case Ok(next) => WorkersFrom(params[1..], next)
  }

  function BatchParam(param: GoString, acc: BatchParams, rt: Runtime): Result<BatchParams>
  {
    match Cut(param, '=')
    case None => Err(ErrParamForm)
    case Some((key, value)) =>
      if key == "queueSize" then
        match Atoi(value)
        case None => Err(ErrNumber(key, value))
        case Some(n) => Ok(acc.(queueSize := n))
      else if key == "batchSize" then
        match Atoi(value)
        case None => Err(ErrNumber(key, value))
        case Some(n) => Ok(acc.(batchSize := n))
      else if key == "flushInterval" then
        match rt.parseDuration(value)
        case None => Err(ErrFlushInterval(value))
        case Some(d) => Ok(acc.(flushInterval := d))
      else Err(ErrBatchKey(key))
  }

  function BatchParamsFrom(params: seq<GoString>, acc: BatchParams, rt: Runtime): Result<BatchParams>
    decreases |params|
  {
    if params == [] then Ok(acc)
    else match BatchParam(params[0], acc, rt)
      case Err(e) => Err(e)
      case Ok(next) => BatchParamsFrom(params[1..], next, rt)
  }

  // -------------------------------------------------------------- layers

  /** One layer: the new `lastLayer`, an error, or the panic of calling a nil closure. */
  function LayerStep(layer: GoString, last: Option<Recipe>, rt: Runtime): Outcome<Result<Option<Recipe>>>
  {
    var l := TrimSpace(layer);
    if l == [] then Returns(Ok(last))
    else match Cut(l, ':')
      case None => Returns(Err(ErrLayerForm))
      case Some((typeName, params)) =>
        var ps := Split(params, ",");
        if typeName == "bigquery" || typeName == "bq" then
          match BqParamsFrom(ps, NoBqParams)
          case Err(e) => Returns(Err(e))
          case Ok(p) => Returns(Ok(Some(BigQueryLayer(p))))
        else if typeName == "parallel" then
          match WorkersFrom(ps, 0)
          case Err(e) => Returns(Err(e))
          case Ok(w) => Returns(Ok(Some(ParallelLayer(last, w))))
        else if typeName == "batch" then
          match BatchParamsFrom(ps, NoBatchParams, rt)
          case Err(e) => Returns(Err(e))
          case Ok(b) =>
            if last.None? then Panics(ErrNilDereference)
            else match Build(last.value, rt)
              case Panics(m) => Panics(m)
              case Returns(Err(e)) => Returns(Err(e))
              case Returns(Ok(d)) => Returns(Ok(Some(BatchLayer(d, b))))
        else Returns(Ok(last))
  }

  /** The layers left to right, the first error or panic ending it. */
  function LayersFrom(layers: seq<GoString>, last: Option<Recipe>, rt: Runtime): Outcome<Result<Option<Recipe>>>
    decreases |layers|
  {
    if layers == [] then Returns(Ok(last))
    else match LayerStep(layers[0], last, rt)
      case Panics(m) => Panics(m)
      case Returns(Err(e)) => Returns(Err(e))
      case Returns(Ok(next)) => LayersFrom(layers[1..], next, rt)
  }

  /** What CreateDestination returns (or the panic it raises). */
  function Configure(config: GoString, rt: Runtime): Outcome<Result<Destination>>
  {
    match LayersFrom(Split(config, "|"), None, rt)
    case Panics(m) => Panics(m)
    case Returns(Err(e)) => Returns(Err(e))
    case Returns(Ok(None)) => Returns(Err(ErrNoDestination))
    case Returns(Ok(Some(r))) => Build(r, rt)
  }

  // ----------------------------------------------------------- properties

  /** Cut splits at the first separator: a prefix without it is recovered. */
  lemma CutFirst(prefix: GoString, c: ByteChar, rest: GoString)
    requires c !in prefix
    ensures Cut(prefix + [c] + rest, c) == Some((prefix, rest))
  {
    var s := prefix + [c] + rest;
    assert s[|prefix|] == c;
    assert forall j :: 0 <= j < |prefix| ==> s[j] == prefix[j];
    assert s[..|prefix|] == prefix && s[|prefix| + 1..] == rest;
  }

  predicate KnownBqKey(key: GoString)
  {
    key == "appName" || key == "project" || key == "dataset" || key == "credentialsPath"
  }

  /** A bigquery layer's parameters are accepted exactly when each is `key=value` with one of the four keys. */
  lemma {:induction false} BqParamsAccepted(params: seq<GoString>, acc: BqParams)
    ensures BqParamsFrom(params, acc).Ok? <==>
      forall i :: 0 <= i < |params| ==> Cut(params[i], '=').Some? && KnownBqKey(Cut(params[i], '=').value.0)
    decreases |params|
  {
    if params != [] {
      var step := BqParam(params[0], acc);
      if step.Ok? {
        BqParamsAccepted(params[1..], step.value);
        assert forall i :: 1 <= i < |params| ==> params[i] == params[1..][i - 1];
      }
    }
  }

  /** The value a key sets. */
  function WithBqKey(p: BqParams, key: GoString, value: GoString): BqParams
    requires KnownBqKey(key)
  {
    if key == "appName" then p.(appName := value)
    else if key == "project" then p.(project := value)
    else if key == "dataset" then p.(dataset := value)
    else p.(credentialsPath := value)
  }

  /** A key given again later wins: appending `key=value` overrides whatever came before. */
  lemma {:induction false} BqLastValueWins(params: seq<GoString>, acc: BqParams, key: GoString, value: GoString)
    requires KnownBqKey(key) && '=' !in key
    ensures BqParamsFrom(params + [key + "=" + value], acc) ==
      match BqParamsFrom(params, acc)
      case Err(e) => Err(e)
      case Ok(p) => Ok(WithBqKey(p, key, value))
    decreases |params|
  {
    var last := key + "=" + value;
    if params == [] {
      assert [last][1..] == [];
      CutFirst(key, '=', value);
      assert last == key + ['='] + value;
    } else {
      assert (params + [last])[0] == params[0] && (params + [last])[1..] == params[1..] + [last];
      var step := BqParam(params[0], acc);
      if step.Ok? {
        BqParamsLastValueWinsStep(params, acc, key, value);
      }
    }
  }

  lemma {:induction false} BqParamsLastValueWinsStep(params: seq<GoString>, acc: BqParams, key: GoString, value: GoString)
    requires KnownBqKey(key) && '=' !in key && params != [] && BqParam(params[0], acc).Ok?
    ensures BqParamsFrom(params + [key + "=" + value], acc) ==
      match BqParamsFrom(params, acc)
      case Err(e) => Err(e)
      case Ok(p) => Ok(WithBqKey(p, key, value))
    decreases |params|, 0
  {
    var last := key + "=" + value;
    assert (params + [last])[0] == params[0] && (params + [last])[1..] == params[1..] + [last];
    BqLastValueWins(params[1..], BqParam(params[0], acc).value, key, value);
  }

  /** A layer CreateDestination skips: blank, or of a type it does not know. */
  predicate Ignored(layer: GoString)
  {
    var l := TrimSpace(layer);
    l == [] || (Cut(l, ':').Some? && !(Cut(l, ':').value.0 in ["bigquery", "bq", "parallel", "batch"]))
  }

  lemma IgnoredStep(layer: GoString, last: Option<Recipe>, rt: Runtime)
    requires Ignored(layer)
    ensures LayerStep(layer, last, rt) == Returns(Ok(last))
  {
    var l := TrimSpace(layer);
    if l != [] {
      var (typeName, params) := Cut(l, ':').value;
      assert !(typeName in ["bigquery", "bq", "parallel", "batch"]);
    }
  }

  /** Skipped layers leave `lastLayer` as it was. */
  lemma {:induction false} IgnoredLayers(layers: seq<GoString>, last: Option<Recipe>, rt: Runtime)
    requires forall j :: 0 <= j < |layers| ==> Ignored(layers[j])
    ensures LayersFrom(layers, last, rt) == Returns(Ok(last))
    decreases |layers|
  {
    if layers != [] {
      IgnoredStep(layers[0], last, rt);
      assert forall j :: 0 <= j < |layers[1..]| ==> layers[1..][j] == layers[j + 1];
      IgnoredLayers(layers[1..], last, rt);
    }
  }

  /** Running two lists of layers is running the first, then the second from where it left `lastLayer`. */
  lemma {:induction false} LayersFromAppend(a: seq<GoString>, b: seq<GoString>, last: Option<Recipe>, rt: Runtime)
    ensures LayersFrom(a + b, last, rt) ==
      match LayersFrom(a, last, rt)
      case Returns(Ok(next)) => LayersFrom(b, next, rt)
      case other => other
    decreases |a|
  {
    if a == [] {
      assert a + b == b;
    } else {
      assert (a + b)[0] == a[0] && (a + b)[1..] == a[1..] + b;
      match LayerStep(a[0], last, rt)
      case Panics(m) =>
      case Returns(Err(e)) =>
      case Returns(Ok(next)) =>
        LayersFromAppend(a[1..], b, next, rt);
    }
  }

  /** A configuration made only of skipped layers (such as "127.0.0.1:1234") is an error. */
  lemma NothingRecognised(config: GoString, rt: Runtime)
    requires forall j :: 0 <= j < |Split(config, "|")| ==> Ignored(Split(config, "|")[j])
    ensures Configure(config, rt) == Returns(Err(ErrNoDestination))
  {
    IgnoredLayers(Split(config, "|"), None, rt);
  }

  /** A bare listen address, as a configuration, names no destination. */
  lemma AddressIsNoDestination(rt: Runtime)
    ensures Configure("127.0.0.1:1234", rt) == Returns(Err(ErrNoDestination))
  {
    var config: GoString := "127.0.0.1:1234";
    assert Split(config, "|") == [config] by {
      forall i | 0 <= i < |config| ensures !("|" <= config[i..]) {
        assert config[i..][0] == config[i];
      }
      SplitNoSep(config, "|");
    }
    assert Ignored(config) by {
      AddressIgnored(config);
    }
    NothingRecognised(config, rt);
  }

  lemma AddressIgnored(config: GoString)
    requires config == "127.0.0.1:1234"
    ensures Ignored(config)
  {
    var host: GoString, port: GoString := "127.0.0.1", "1234";
    assert config == host + [':'] + port;
    assert |host| == 9;
    UnknownLayerIgnored(host, port);
  }

  /** A layer `type:rest` of a type CreateDestination does not know is skipped. */
  lemma UnknownLayerIgnored(typeName: GoString, rest: GoString)
    requires ':' !in typeName && typeName != [] && typeName[0] < '\U{80}' && !IsSpace(typeName[0])
    requires rest != [] && rest[|rest| - 1] < '\U{80}' && !IsSpace(rest[|rest| - 1])
    requires !(typeName in ["bigquery", "bq", "parallel", "batch"])
    ensures Ignored(typeName + [':'] + rest)
  {
    LayerKept(typeName, rest);
    CutFirst(typeName, ':', rest);
    IgnoredByType(typeName + [':'] + rest, typeName, rest);
  }

  lemma LayerKept(typeName: GoString, rest: GoString)
    requires typeName != [] && typeName[0] < '\U{80}' && !IsSpace(typeName[0])
    requires rest != [] && rest[|rest| - 1] < '\U{80}' && !IsSpace(rest[|rest| - 1])
    ensures TrimSpace(typeName + [':'] + rest) == typeName + [':'] + rest
  {
    var l := typeName + [':'] + rest;
    assert l[0] == typeName[0] && l[|l| - 1] == rest[|rest| - 1];
    TrimSpaceKeeps(l);
  }

  lemma IgnoredByType(layer: GoString, typeName: GoString, rest: GoString)
    requires Cut(TrimSpace(layer), ':') == Some((typeName, rest))
    requires !(typeName in ["bigquery", "bq", "parallel", "batch"])
    ensures Ignored(layer)
  {
  }

  /** The type and parameter list of a layer that is neither blank nor malformed. */
  predicate LayerOf(layer: GoString, typeName: GoString, params: seq<GoString>)
  {
    var l := TrimSpace(layer);
    Cut(l, ':').Some? && Cut(l, ':').value.0 == typeName && Split(Cut(l, ':').value.1, ",") == params
  }

  /** A batch layer with nothing before it calls a nil closure once its parameters parse. */
  lemma BatchWithoutPrevious(layer: GoString, params: seq<GoString>, rt: Runtime)
    requires LayerOf(layer, "batch", params) && BatchParamsFrom(params, NoBatchParams, rt).Ok?
    ensures LayerStep(layer, None, rt) == Panics(ErrNilDereference)
  {
    NonBlank(layer);
  }

  lemma NonBlank(layer: GoString)
    requires Cut(TrimSpace(layer), ':').Some?
    ensures TrimSpace(layer) != []
  {
  }

  /** A batch layer whose parameters parse and which follows only skipped layers calls a nil closure. */
  lemma BatchFirstPanics(layers: seq<GoString>, k: nat, params: seq<GoString>, rt: Runtime)
    requires k < |layers| && forall j :: 0 <= j < k ==> Ignored(layers[j])
    requires LayerOf(layers[k], "batch", params) && BatchParamsFrom(params, NoBatchParams, rt).Ok?
    ensures LayersFrom(layers, None, rt) == Panics(ErrNilDereference)
  {
    assert layers == layers[..k] + layers[k..];
    assert LayersFrom(layers[..k], None, rt) == Returns(Ok(None)) by {
      IgnoredLayers(layers[..k], None, rt);
    }
    assert LayersFrom(layers, None, rt) == LayersFrom(layers[k..], None, rt) by {
      LayersFromAppend(layers[..k], layers[k..], None, rt);
    }
    assert layers[k..][0] == layers[k];
    BatchWithoutPrevious(layers[k], params, rt);
  }

  /**
   * A parallel layer wraps the chain so far without building it, so a
   * construction error of that chain is not reported.
   */
  lemma ParallelDefersBuild(layer: GoString, params: seq<GoString>, previous: Recipe, rt: Runtime)
    requires LayerOf(layer, "parallel", params) && WorkersFrom(params, 0).Ok?
    ensures LayerStep(layer, Some(previous), rt) == Returns(Ok(Some(ParallelLayer(Some(previous), WorkersFrom(params, 0).value))))
    ensures Build(ParallelLayer(Some(previous), WorkersFrom(params, 0).value), rt) == Returns(Ok(Parallel(Some(previous), WorkersFrom(params, 0).value)))
  {
    NonBlank(layer);
  }

  /**
   * A batch layer over a batch whose queueSize is negative panics: building
   * the inner batch makes a channel of that capacity.
   */
  lemma NegativeQueuePanics(layer: GoString, params: seq<GoString>, previous: Recipe, rt: Runtime)
    requires LayerOf(layer, "batch", params) && BatchParamsFrom(params, NoBatchParams, rt).Ok?
    requires previous.BatchLayer? && previous.batch.queueSize < 0
    ensures LayerStep(layer, Some(previous), rt) == Panics(ErrChanSize)
  {
    NonBlank(layer);
  }

  /** A batch layer builds the chain so far at once: its panic is raised, its error returned. */
  lemma BatchBuildsAtOnce(layer: GoString, params: seq<GoString>, previous: Recipe, rt: Runtime)
    requires LayerOf(layer, "batch", params) && BatchParamsFrom(params, NoBatchParams, rt).Ok?
    ensures Build(previous, rt).Panics? ==> LayerStep(layer, Some(previous), rt) == Panics(Build(previous, rt).message)
    ensures Build(previous, rt).Returns? && Build(previous, rt).value.Err? ==>
      LayerStep(layer, Some(previous), rt) == Returns(Err(Build(previous, rt).value.error))
    ensures Build(previous, rt).Returns? && Build(previous, rt).value.Ok? ==>
      LayerStep(layer, Some(previous), rt) == Returns(Ok(Some(BatchLayer(Build(previous, rt).value.value, BatchParamsFrom(params, NoBatchParams, rt).value))))
  {
    NonBlank(layer);
  }

  // ------------------------------------------------------------- methods

  method ParseBigQuery(params: seq<GoString>) returns (r: Result<BqParams>)
    ensures r == BqParamsFrom(params, NoBqParams)
  {
    var acc := NoBqParams;
    for i := 0 to |params|
      invariant BqParamsFrom(params, NoBqParams) == BqParamsFrom(params[i..], acc)
    {
      assert params[i..][1..] == params[i + 1..];
      var cut := Cut(params[i], '=');
      if cut.None? {
        return Err(ErrParamForm);
      }
      var (key, value) := cut.value;
      if key == "appName" {
        acc := acc.(appName := value);
      } else if key == "project" {
        acc := acc.(project := value);
      } else if key == "dataset" {
        acc := acc.(dataset := value);
      } else if key == "credentialsPath" {
        acc := acc.(credentialsPath := value);
      } else {
        return Err(ErrBigQueryKey(key));
      }
    }
    assert params[|params|..] == [];
    return Ok(acc);
  }

  method ParseWorkers(params: seq<GoString>) returns (r: Result<int64>)
    ensures r == WorkersFrom(params, 0)
  {
    var workers: int64 := 0;
    for i := 0 to |params|
      invariant WorkersFrom(params, 0) == WorkersFrom(params[i..], workers)
    {
      assert params[i..][1..] == params[i + 1..];
      var cut := Cut(params[i], '=');
      if cut.None? {
        return Err(ErrParamForm);
      }
      var (key, value) := cut.value;
      if key == "workers" {
        var n := Atoi(value);
        if n.None? {
          return Err(ErrWorkers(value));
        }
        workers := n.value;
      } else {
        return Err(ErrParallelKey(value));
      }
    }
    assert params[|params|..] == [];
    return Ok(workers);
  }

  method ParseBatch(params: seq<GoString>, rt: Runtime) returns (r: Result<BatchParams>)
    ensures r == BatchParamsFrom(params, NoBatchParams, rt)
  {
    var acc := NoBatchParams;
    for i := 0 to |params|
      invariant BatchParamsFrom(params, NoBatchParams, rt) == BatchParamsFrom(params[i..], acc, rt)
    {
      assert params[i..][1..] == params[i + 1..];
      var cut := Cut(params[i], '=');
      if cut.None? {
        return Err(ErrParamForm);
      }
      var (key, value) := cut.value;
      if key == "queueSize" || key == "batchSize" {
        var n := Atoi(value);
        if n.None? {
          return Err(ErrNumber(key, value));
        }
        acc := if key == "queueSize" then acc.(queueSize := n.value) else acc.(batchSize := n.value);
      } else if key == "flushInterval" {
        var d := rt.parseDuration(value);
        if d.None? {
          return Err(ErrFlushInterval(value));
        }
        acc := acc.(flushInterval := d.value);
      } else {
        return Err(ErrBatchKey(key));
      }
    }
    assert params[|params|..] == [];
    return Ok(acc);
  }

  /** The body of CreateDestination's loop for one layer. */
  method ApplyLayer(layer: GoString, lastLayer: Option<Recipe>, rt: Runtime) returns (r: Outcome<Result<Option<Recipe>>>)
    ensures r == LayerStep(layer, lastLayer, rt)
  {
    var trimmed := TrimSpace(layer);
    if trimmed == [] {
      return Returns(Ok(lastLayer));
    }
    var cut := Cut(trimmed, ':');
    if cut.None? {
      return Returns(Err(ErrLayerForm));
    }
    var (typeName, params) := cut.value;
    if typeName == "bigquery" || typeName == "bq" {
      var p := ParseBigQuery(Split(params, ","));
      if p.Err? {
        return Returns(Err(p.error));
      }
      return Returns(Ok(Some(BigQueryLayer(p.value))));
    } else if typeName == "parallel" {
      var w := ParseWorkers(Split(params, ","));
      if w.Err? {
        return Returns(Err(w.error));
      }
      return Returns(Ok(Some(ParallelLayer(lastLayer, w.value))));
    } else if typeName == "batch" {
      var b := ParseBatch(Split(params, ","), rt);
      if b.Err? {
        return Returns(Err(b.error));
      }
      if lastLayer.None? {
        return Panics(ErrNilDereference);
      }
      var ekDest := Build(lastLayer.value, rt);
      if ekDest.Panics? {
        return Panics(ekDest.message);
      }
      if ekDest.value.Err? {
        return Returns(Err(ekDest.value.error));
      }
      return Returns(Ok(Some(BatchLayer(ekDest.value.value, b.value))));
    }
    return Returns(Ok(lastLayer));
  }

  /**
   * One turn of CreateDestination's layer loop: the layer at `i` applied
   * to `lastLayer`.  `whole`, the outcome of the layers from `i` on, is the
   * step's panic or error, or else the outcome of the layers after `i`.
   */
  method ApplyNext(layers: seq<GoString>, i: nat, lastLayer: Option<Recipe>, rt: Runtime, ghost whole: Outcome<Result<Option<Recipe>>>)
    returns (r: Outcome<Result<Option<Recipe>>>)
    requires i < |layers| && whole == LayersFrom(layers[i..], lastLayer, rt)
    ensures r.Panics? ==> whole == Panics(r.message)
    ensures r.Returns? && r.value.Err? ==> whole == Returns(Err(r.value.error))
    ensures r.Returns? && r.value.Ok? ==> whole == LayersFrom(layers[i + 1..], r.value.value, rt)
  {
    assert layers[i..][0] == layers[i] && layers[i..][1..] == layers[i + 1..];
    r := ApplyLayer(layers[i], lastLayer, rt);
  }

  /** CreateDestination's layer loop: the layers applied in order, up to the first error or panic. */
  method ApplyLayers(layers: seq<GoString>, rt: Runtime) returns (r: Outcome<Result<Option<Recipe>>>)
    ensures r == LayersFrom(layers, None, rt)
  {
    ghost var whole := LayersFrom(layers, None, rt);
    var lastLayer: Option<Recipe> := None;
    for i := 0 to |layers|
      invariant whole == LayersFrom(layers[i..], lastLayer, rt)
    {
      var step := ApplyNext(layers, i, lastLayer, rt, whole);
      if step.Panics? || step.value.Err? {
        return step;
      }
      lastLayer := step.value.value;
    }
    assert layers[|layers|..] == [];
    return Returns(Ok(lastLayer));
  }

  /** CreateDestination: the layer loop, then the last layer's closure called. */
  method CreateDestination(config: GoString, rt: Runtime) returns (r: Outcome<Result<Destination>>)
    ensures r == Configure(config, rt)
  {
    var layers := Split(config, "|");
    var applied := ApplyLayers(layers, rt);
    if applied.Panics? {
      return Panics(applied.message);
    }
    if applied.value.Err? {
      return Returns(Err(applied.value.error));
    }
    var lastLayer := applied.value.value;
    if lastLayer.None? {
      return Returns(Err(ErrNoDestination));
    }
    return Build(lastLayer.value, rt);
  }
}
