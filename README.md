# ansible-sphinx: a Dafny model of its string, registry and index logic

`ansible_sphinx.py` extends Sphinx with an `ansible` domain. Its directives
render the documentation of Ansible plugins: options, return values and
examples. They get that documentation from `ansible-doc -j`. A
cross-reference registry maps qualified object names to the documents that
define them. Two scaffolding helpers write one page per role and per module
of a collection, plus an index page for each.

This project models the deterministic logic inside that glue:

- `Strings`: Python's `split`, `join` and `replace` on one character. Their round trips are proved in both directions.
- `Names`: `plugin_name`, `object_name`, and the argument the objects directives give their children. Also the key under which an object is registered (`add_target_and_index`) and the key a reference looks up (`resolve_xref`).
- `Json`: the parsed plugin descriptor, with fields in document order. Also the `.get` chains of the `object` properties.
- `Render`: the markup the `run` methods build. This covers the plugin summary and its sections, one child directive per option or return value, the page of one option or return value, and the examples code block.
- `Registry`: the `objects` mapping with insert-if-absent, the anchor ids, the index entries, and resolution. It also models a whole build as a sequence of definitions.
- `Scaffold`: `generate_roles`, `generate_modules`, `collection_prefix` and `generate`. Directory listings are inputs. The files written are returned as a sequence of (path, contents) writes.

Python exceptions become values of `Common.Result`:

- `MissingKey` for a `KeyError`.
- `NotAMapping` for a dict method used on a value that is not a dict: the AttributeError of `.get`, `.items`, `.keys` or `.copy`. On a list, `.copy()` succeeds and `pop('description')` then raises a TypeError; that is `NotAMapping` too.
- `NotText` for a string operation on a value that is not a string.


## Model

| member | source | states |
|---|---|---|
| `Strings.Split` | ansible_sphinx.py:63 | `str.split` on one character gives at least one piece, and no piece holds the separator |
| `Strings.SplitJoin` | ansible_sphinx.py:63 | joining pieces that hold no separator, then splitting, gives the pieces back |
| `Strings.JoinSplit` | ansible_sphinx.py:63 | splitting, then joining with the same separator, gives the string back |
| `Strings.Replace` | ansible_sphinx.py:32 | `str.replace` of one character keeps the length, swaps exactly that character and changes nothing else |
| `Names.ObjectName` | ansible_sphinx.py:67 | the object name holds no dot and is the end of the argument after its last dot, or the whole argument when it has none |
| `Names.PluginName` | ansible_sphinx.py:63 | the plugin name is a prefix of the argument, holds no space and at most two dots |
| `Names.PluginNameMaximal` | ansible_sphinx.py:63 | the plugin name is cut only where the source cuts: it is the whole argument, or the argument goes on with a space, or with the dot that would start a fourth segment (the name then holds exactly two dots) |
| `Names.PluginNameOfPlain` | ansible_sphinx.py:63 | an argument of at most three segments and no space is its own plugin name |
| `Names.PluginNameIdempotent` | ansible_sphinx.py:63 | taking the plugin name of a plugin name changes nothing |
| `Names.ChildArgument` | ansible_sphinx.py:112 | the child argument starts with the plugin name, then one dot, and ends with the key |
| `Names.ChildArgumentRoundTrip` | ansible_sphinx.py:62-67 | the child argument `p.n` of line 112, with `p` three space-free segments and `n` dot-free, gives back plugin name `p` and object name `n` |
| `Names.TargetName` | ansible_sphinx.py:32 | the registered key is the directive name with each colon turned into a dot, then a dot, then the object name |
| `Names.XrefKey` | ansible_sphinx.py:231 | for a type without dots, the looked-up key's dotted segments are `ansible`, the type, then the target's segments |
| `Names.TargetIsXrefKey` | ansible_sphinx.py:32 | the key a directive `ansible:<type>` named `t` registers is exactly the key `resolve_xref(type, t)` looks up (line 231) |
| `Names.TargetNameInjective` | ansible_sphinx.py:32 | different names of one type register different keys |
| `Json.Lookup` | ansible_sphinx.py:74 | a lookup finds nothing exactly when no field has the key, otherwise a value stored under the key |
| `Json.Get` | ansible_sphinx.py:74 | `.get` fails exactly on a non-dict; on a dict it returns the value `Lookup` finds under the key, or the default when the key is absent |
| `Json.DocOf` | ansible_sphinx.py:74 | `json.get('doc', {})` fails exactly on a non-dict descriptor, and otherwise gives the stored `doc` or an empty dict |
| `Json.OptionsOf` | ansible_sphinx.py:164 | the options mapping exists exactly when the descriptor and its `doc` are dicts; it is the stored `options`, or an empty dict, also when `doc` is missing |
| `Json.OptionOf` | ansible_sphinx.py:170 | one option is found exactly when the options mapping is a dict; it is the value stored under the name, or `None` |
| `Json.ReturnsOf` | ansible_sphinx.py:150 | `json.get('return', None)` fails exactly on a non-dict descriptor, and otherwise gives the stored `return` or `None` |
| `Json.ReturnOf` | ansible_sphinx.py:156 | one return value is found exactly when the descriptor is a dict and its `return`, if present, is a dict; a missing `return` gives `None`; otherwise the value under the name, or `None` |
| `Json.ExamplesOf` | ansible_sphinx.py:176 | `json.get('examples', False)` fails exactly on a non-dict descriptor, and otherwise gives the stored examples or `False` |
| `Render.PluginSummary` | ansible_sphinx.py:73-81 | one bullet per `doc` entry that is not `examples` and not dict-valued, in `doc` order; list values are joined with `", "`; there are no other lines |
| `Render.Sections` | ansible_sphinx.py:91-104 | Options appears iff `doc.options` is truthy, Examples iff the descriptor has `examples`, Return iff it has `return`; they always come in that order, each at most once |
| `Render.PageSections` | ansible_sphinx.py:83-104 | the sections are exactly the markups of the kinds `Sections` picks, in that order; each has its title, the anchor `<argument>-<title in lower case>` and the `.. ansible:<type>:: <argument>` line |
| `Render.PluginPageOf` | ansible_sphinx.py:71-105 | fails exactly when the descriptor or its `doc` is not a dict; otherwise gives the summary of `doc` and one section per kind `Sections` picks, each holding its `.. ansible:<type>::` line for the same argument |
| `Render.ChildLinesOf` | ansible_sphinx.py:111-112 | the loop emits exactly one `.. ansible:<typ>:: <plugin>.<key>` line per key, in key order, and nothing else |
| `Render.ChildDirectives` | ansible_sphinx.py:109-113 | fails exactly on a non-dict; otherwise exactly one `.. ansible:<typ>:: <plugin_name>.<key>` line per key, in key order |
| `Render.ChildFindsOption` | ansible_sphinx.py:167-170 | when the directive's plugin name is exactly three dot-separated segments without a space and the option key holds no dot, each child line the options directive emits names the same plugin, and its lookup by object name finds the option stored under its key |
| `Render.ChildFindsReturn` | ansible_sphinx.py:153-156 | under the same conditions (a plugin name of exactly three space-free segments, a key without a dot), the same for the return values the returns directive emits |
| `Render.DescriptionText` | ansible_sphinx.py:128-131 | a falsy description gives no paragraph; a truthy string gives a newline followed by it; a list description is joined with blank lines after the newline; a truthy value that is neither a string nor a list is an error |
| `Render.ObjectPageOf` | ansible_sphinx.py:124-137 | a non-dict is an error; a missing `description` is a `KeyError`; otherwise one bullet per remaining field, in order, none for `description`, with list values joined by single spaces |
| `Render.CodeBlock` | ansible_sphinx.py:176-182 | the examples render iff they are a string; the default `False` and any other value cannot be split |
| `Render.CodeBlockLines` | ansible_sphinx.py:180-181 | the code block's lines are the `.. code:: yaml` line, the first examples line as is, every further line indented by two spaces, and a final empty line |
| `Registry.InsertIfAbsent` | ansible_sphinx.py:33-34 | first wins: a present key keeps its document, an absent key gets the current one, other keys are untouched |
| `Registry.BuiltFirstWins` | ansible_sphinx.py:33-34 | after a sequence of registrations, a key resolves to its earlier document or to the first definition that registers it, and to nothing if none does |
| `Registry.ResolveAfterBuild` | ansible_sphinx.py:231-235 | from an empty registry, a reference of role `t` to `n` finds the first document that defined an object of type `t` named `n` |
| `Registry.TwoDefinitions` | ansible_sphinx.py:33-34 | two distinct keys are both stored; the same key registered twice keeps the first document |
| `Registry.Domain.constructor` | ansible_sphinx.py:223-225 | the domain starts with no objects, no anchors and no index entries, and satisfies `Valid` |
| `Registry.Domain.Resolve` | ansible_sphinx.py:227-235 | a reference resolves exactly when `ansible.<typ>.<target>` is registered, to the registered document at the anchor of that name |
| `Registry.Domain.Register` | ansible_sphinx.py:28-39 | the key is stored and gets an anchor id only when absent; exactly one index entry `('single', name, key, '', None)` is appended; `Valid` (one anchor per key) is preserved; the object then resolves to its first document at an anchor in `ids` |
| `Scaffold.WrittenIdempotent` | ansible_sphinx.py:277-281 | writing the same files again (mode `w+` truncates) leaves the tree as it was after the first time |
| `Scaffold.WrittenLast` | ansible_sphinx.py:318-321 | a file holds what the last write to it wrote |
| `Scaffold.IndexText` | ansible_sphinx.py:277-281 | the index text starts with the header |
| `Scaffold.IndexLines` | ansible_sphinx.py:277-281 | the index is the header's lines, then one `"   " + name` line per name, in order, and nothing else |
| `Scaffold.WriteIndex` | ansible_sphinx.py:318-321 | the index-writing loop produces the header followed by `"\n   " + name` for each name |
| `Scaffold.GenerateRoles` | ansible_sphinx.py:253-280 | keeps exactly the roles with a README, in listing order; copies each README to `roles/<name>.md`, then writes the index of those names |
| `Scaffold.RolesIndexAfterGenerate` | ansible_sphinx.py:257-280 | after the roles pass, whatever was there before, `roles/index.rst` lists exactly the roles that have a README, in listing order |
| `Scaffold.CollectionPrefix` | ansible_sphinx.py:247-250 | a missing `namespace`, then a missing `name`, is a `KeyError`; otherwise the prefix splits into the namespace's segments followed by the name's |
| `Scaffold.StripPy` | ansible_sphinx.py:295 | `name[:-3]` is the name without its last three characters, and empty for a shorter name |
| `Scaffold.ModuleStub` | ansible_sphinx.py:298-306 | for names without newlines, the stub's lines are an empty line, `<prefix>.<module>`, the underline, an empty line, `.. ansible:plugin:: <prefix>.<module>`, and a final empty line |
| `Scaffold.GenerateModules` | ansible_sphinx.py:283-321 | skips exactly `__init__.py`, cuts three characters off every other file name, keeps listing order, writes one stub per module and then the index |
| `Scaffold.ModulesIndexAfterGenerate` | ansible_sphinx.py:291-321 | after the modules pass, `modules/index.rst` lists exactly the stripped module names, in listing order, even when a module is named `index` |
| `Scaffold.StubNamesItsPlugin` | ansible_sphinx.py:295-305 | `<m>.py` becomes module `m`, and the stub's `ansible:plugin` argument `<namespace>.<name>.<m>` is its own plugin name |
| `Scaffold.Generate` | ansible_sphinx.py:324-326 | the roles pass runs first; a bad `galaxy.yml` stops the modules pass before it writes anything, after the roles' files are written |

## Left out

- The `ansible-doc -j` subprocess and `json.loads` (ansible_sphinx.py:55-59) are a foreign process and a library parser. The parsed plugin descriptor is an input `Json` value.
- `functools.cached_property` laziness is not modelled. Each property is a value computed from the directive's argument and descriptor.
- Python's `str()` of numbers, booleans and null is not modelled. A `Scalar` carries the text `str()` prints and the value's truthiness.
- `str()` of a dict (an option's `suboptions`, say) is not modelled. It is the parameter `reprDict` of `Render.FieldText`.
- A list with non-string items, on which `join` raises `TypeError`, is not representable: `List` holds strings only.
- JSON objects with a repeated key are not modelled. `Json.Lookup` takes the first field with the key; `json.loads` would keep the last value.
- The Sphinx and docutils trees are not modelled: `nested_parse_to_nodes`, the `textwrap.dedent(...).strip()` in `rst_nodes`, `make_id`, `make_refnode`, `desc_name` and the `nodes[1][1] +=` splicing. The model states the markup strings and the section records those calls receive.
- The kind of exception is not modelled: Python raises KeyError, AttributeError or TypeError, and the model keeps only the three `Fault` values above. For example, `NotAMapping` stands for both the AttributeError of `str.copy` and the TypeError of `list.pop('description')`.
- `handle_signature` is not modelled. `Registry.Domain.Register` takes the already stripped signature.
- `Registry.Domain` keeps one `ids` and one `entries` sequence for the whole build. In Sphinx each signature node has its own ids and each directive its own index node; the model's sequences are their concatenation in run order.
- The domain's directive, role and object-type tables and `setup` (ansible_sphinx.py:188-244) are configuration. `Names.ObjType` fixes the directive names they produce. The `role` object type has no directive and is not modelled.
- The filesystem is not modelled: `iterdir` order is the input listing, `exists` is whether `RoleDir.readme` is present, `copyfile` copies that text, and `mkdir` and I/O errors are left out.
- The YAML load of `galaxy.yml` is not modelled. Its contents are a `map<string, string>`; non-string values, on which the `join` would fail, are not represented.
- The module stub is the text `textwrap.dedent` leaves for a prefix and module name without newlines; dedent itself is not modelled.
- test/docs/conf.py and setup.py are build configuration and are not part of this model.

## Notes on behaviour

- Regenerating from the same listings gives the same files (`Scaffold.WrittenIdempotent`). Pages of roles or modules that have since disappeared from a listing are not deleted; only the index pages are rewritten in full.
- A module file named `index.py` gets its stub written to `modules/index.rst`, and the index then overwrites it. `Scaffold.ModulesIndexAfterGenerate` states that the index always wins.
- The examples code block leaves the first line of the examples text unindented (`Render.CodeBlockLines`). The examples `ansible-doc` prints usually start with a newline, so that first line is normally empty.
- A child argument round-trips only when the plugin name has exactly three segments and the key holds no dot (`Names.ChildArgumentRoundTrip`). An option name containing a dot would send its child directive to the wrong object.
