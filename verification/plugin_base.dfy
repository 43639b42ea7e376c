/**
 * The parameter handling every plugin shares: parameters start as a copy
 * of the plugin's defaults with the configuration laid over them, and the
 * debug information reads a fixed list of parameter names.
 */
module PluginBase {

  /** A configuration value as the plugins pass them around. */
  datatype Value = Null | Flag(b: bool) | Number(x: real) | Text(s: string) | Items(items: seq<Value>)

  type Params = map<string, Value>

  /** `set_params`: every given key is written, new keys are added, the others keep their values. */
  function SetParams(params: Params, kwargs: Params): (r: Params)
    ensures r.Keys == params.Keys + kwargs.Keys
    ensures forall k :: k in kwargs ==> r[k] == kwargs[k]
    ensures forall k :: k in params && k !in kwargs ==> r[k] == params[k]
  {
    params + kwargs
  }

  /**
   * `__init__`: a copy of the defaults, overridden by the configuration
   * when one is given and non-empty. The defaults themselves are values
   * here, so no plugin can change them.
   */
  function Init(pluginParams: Params, config: Params): (r: Params)
    ensures config == map[] ==> r == pluginParams
    ensures r.Keys == pluginParams.Keys + config.Keys
    ensures forall k :: k in config ==> r[k] == config[k]
    ensures forall k :: k in pluginParams && k !in config ==> r[k] == pluginParams[k]
  {
    if config == map[] then pluginParams else SetParams(pluginParams, config)
  }

  /** Setting the same values twice is setting them once. */
  lemma SetParamsIdempotent(params: Params, kwargs: Params)
    ensures SetParams(SetParams(params, kwargs), kwargs) == SetParams(params, kwargs)
  {
  }

  /** Two updates in a row are one update with the later values winning. */
  lemma SetParamsComposes(params: Params, a: Params, b: Params)
    ensures SetParams(SetParams(params, a), b) == SetParams(params, a + b)
  {
  }

  /** `params.get(var)`: `Null` for a missing key, as Python's `None`. */
  function Get(params: Params, key: string): (v: Value)
    ensures key !in params ==> v == Null
    ensures key in params ==> v == params[key]
  {
    if key in params then params[key] else Null
  }

  /** `get_debug_info`: exactly the debug variables, each with its parameter value or `Null`. */
  function GetDebugInfo(params: Params, debugVars: seq<string>): (r: Params)
    ensures r.Keys == set v | v in debugVars
    ensures forall v :: v in r ==> r[v] == Get(params, v)
  {
    map v | v in debugVars :: Get(params, v)
  }

  /** `add_debug_info`: the given dictionary updated with the debug information, which wins on shared keys. */
  function AddDebugInfo(info: Params, params: Params, debugVars: seq<string>): (r: Params)
    ensures r.Keys == info.Keys + set v | v in debugVars
    ensures forall v :: v in debugVars ==> r[v] == Get(params, v)
    ensures forall k :: k in info && k !in debugVars ==> r[k] == info[k]
  {
    info + GetDebugInfo(params, debugVars)
  }
}
