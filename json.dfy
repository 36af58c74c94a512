/** The plugin descriptor `ansible-doc -j` prints, once `json.loads` has
    parsed it, and the lookups the directives make in it. */
module Json {
  import opened Common

  /** A parsed JSON value. An object keeps its fields in document order, as
      a Python dict does. Numbers, booleans and null are a `Scalar` carrying
      what Python's `str()` prints for them and whether they are truthy. */
  datatype Json =
    | Str(s: string)
    | List(items: seq<string>)
    | Dict(fields: seq<(string, Json)>)
    | Scalar(shown: string, truthy: bool)

  /** Python's `None` and `False`, the defaults some lookups fall back on. */
  const PyNone := Scalar("None", false)
  const PyFalse := Scalar("False", false)

  /** Python's truth value of a JSON value. */
  predicate Truthy(v: Json)
  {
    match v
    case Str(s) => s != ""
    case List(items) => items != []
    case Dict(fields) => fields != []
    case Scalar(_, truthy) => truthy
  }

  /** The value stored under `key`: the first field with that key, if any. */
  function Lookup(fields: seq<(string, Json)>, key: string): (r: Option<Json>)
    ensures r.None? <==> forall i :: 0 <= i < |fields| ==> fields[i].0 != key
    ensures r.Some? ==> exists i :: 0 <= i < |fields| && fields[i] == (key, r.value)
  {
    if fields == [] then None
    else if fields[0].0 == key then Some(fields[0].1)
    else Lookup(fields[1..], key)
  }

  /** The looked-up value, or `default` when there is none. */
  function OrElse(found: Option<Json>, default: Json): Json
  {
    if found.Some? then found.value else default
  }

  /** Python's `v.get(key, default)`: a lookup in a dict never fails, finds
      the first field with the key and falls back on the default otherwise;
      a value that is not a dict has no `get`. */
  function Get(v: Json, key: string, default: Json): (r: Result<Json>)
    ensures r.Err? <==> !v.Dict?
    ensures v.Dict? && (forall i :: 0 <= i < |v.fields| ==> v.fields[i].0 != key) ==> r == Ok(default)
    ensures v.Dict? && Lookup(v.fields, key).Some? ==> r == Ok(Lookup(v.fields, key).value)
    ensures v.Dict? && r != Ok(default) ==>
      exists i :: 0 <= i < |v.fields| && v.fields[i] == (key, r.value)
  {
    if !v.Dict? then Err(NotAMapping)
    else match Lookup(v.fields, key)
      case Some(x) => Ok(x)
      case None => Ok(default)
  }

  /** `json.get('doc', {})`: the plugin's documentation block, an empty
      block when there is none; a descriptor that is not a dict fails. */
  function DocOf(plugin: Json): (r: Result<Json>)
    ensures r.Err? <==> !plugin.Dict?
    ensures plugin.Dict? ==> r.value == OrElse(Lookup(plugin.fields, "doc"), Dict([]))
  {
    Get(plugin, "doc", Dict([]))
  }

  /** `AnsiblePluginOptionsDirective.object`: the options mapping of the
      documentation block, an empty mapping when either is missing. */
  function OptionsOf(plugin: Json): (r: Result<Json>)
    ensures r.Ok? <==> plugin.Dict? && DocOf(plugin).value.Dict?
    ensures r.Ok? ==> r.value == OrElse(Lookup(DocOf(plugin).value.fields, "options"), Dict([]))
    ensures plugin.Dict? && Lookup(plugin.fields, "doc").None? ==> r == Ok(Dict([]))
  {
    var doc :- DocOf(plugin);
    Get(doc, "options", Dict([]))
  }

  /** `AnsiblePluginOptionDirective.object`: one option, `None` when absent. */
  function OptionOf(plugin: Json, name: string): (r: Result<Json>)
    ensures r.Ok? <==> OptionsOf(plugin).Ok? && OptionsOf(plugin).value.Dict?
    ensures r.Ok? ==> r.value == OrElse(Lookup(OptionsOf(plugin).value.fields, name), PyNone)
  {
    var options :- OptionsOf(plugin);
    Get(options, name, PyNone)
  }

  /** `AnsiblePluginReturnsDirective.object`: the return mapping, `None` when absent. */
  function ReturnsOf(plugin: Json): (r: Result<Json>)
    ensures r.Err? <==> !plugin.Dict?
    ensures plugin.Dict? ==> r.value == OrElse(Lookup(plugin.fields, "return"), PyNone)
  {
    Get(plugin, "return", PyNone)
  }

  /** `AnsiblePluginReturnDirective.object`: one return value, `None` when
      absent; here a missing return block counts as an empty mapping. */
  function ReturnOf(plugin: Json, name: string): (r: Result<Json>)
    ensures r.Ok? <==> plugin.Dict? && OrElse(Lookup(plugin.fields, "return"), Dict([])).Dict?
    ensures plugin.Dict? && Lookup(plugin.fields, "return").None? ==> r == Ok(PyNone)
    ensures r.Ok? ==> r.value == OrElse(Lookup(OrElse(Lookup(plugin.fields, "return"), Dict([])).fields, name), PyNone)
  {
    var table :- Get(plugin, "return", Dict([]));
    Get(table, name, PyNone)
  }

  /** `AnsiblePluginExamplesDirective.object`: the examples text, `False` when absent. */
  function ExamplesOf(plugin: Json): (r: Result<Json>)
    ensures r.Err? <==> !plugin.Dict?
    ensures plugin.Dict? ==> r.value == OrElse(Lookup(plugin.fields, "examples"), PyFalse)
  {
    Get(plugin, "examples", PyFalse)
  }
}
