/** The cross-reference registry of the `ansible` domain: every object
    directive registers its qualified name (`AnsibleObject.add_target_and_index`)
    and references look the name up again (`AnsibleDomain.resolve_xref`). */
module Registry {
  import opened Common
  import opened Names

  /** An index entry `('single', name, target, '', None)`. */
  datatype IndexEntry = IndexEntry(entryType: string, name: string, target: string, cls: string, key: Option<string>)

  /** Where a resolved reference points: the document and the anchor id. */
  datatype Reference = Reference(docname: string, anchor: string)

  /** The registry's answer for `key`. */
  function Find(objects: map<string, string>, key: string): Option<string>
  {
    if key in objects then Some(objects[key]) else None
  }

  /** Insert-if-absent: the first document to register a key keeps it,
      every other key is left as it was. */
  function InsertIfAbsent(objects: map<string, string>, key: string, docname: string): (r: map<string, string>)
    ensures r.Keys == objects.Keys + {key}
    ensures r[key] == (if key in objects then objects[key] else docname)
    ensures forall k :: k in objects ==> r[k] == objects[k]
  {
    if key in objects then objects else objects[key := docname]
  }

  /** One object definition met during a build: a directive of type `kind`
      whose signature is `name`, in document `docname`. */
  datatype Definition = Definition(kind: ObjType, name: string, docname: string)

  function KeyOf(d: Definition): string
  {
    TargetName(DirectiveName(d.kind), d.name)
  }

  /** The registry after a build has registered `defs` in order. */
  function Built(objects: map<string, string>, defs: seq<Definition>): map<string, string>
    decreases |defs|
  {
    if defs == [] then objects
    else Built(InsertIfAbsent(objects, KeyOf(defs[0]), defs[0].docname), defs[1..])
  }

  /** The document of the first definition registering `key`, if any. */
  function FirstDefinition(defs: seq<Definition>, key: string): Option<string>
  {
    if defs == [] then None
    else if KeyOf(defs[0]) == key then Some(defs[0].docname)
    else FirstDefinition(defs[1..], key)
  }

  /** First wins across a whole build: a key already registered keeps its
      document, any other key resolves to the first definition that
      registers it, and a key nobody registers resolves to nothing. */
  lemma {:induction false} BuiltFirstWins(objects: map<string, string>, defs: seq<Definition>, key: string)
    ensures Find(Built(objects, defs), key)
         == if key in objects then Some(objects[key]) else FirstDefinition(defs, key)
    decreases |defs|
  {
    if defs != [] {
      var next := InsertIfAbsent(objects, KeyOf(defs[0]), defs[0].docname);
      BuiltFirstWins(next, defs[1..], key);
    }
  }

  /** A reference of role `t` to `name` finds the first document that
      defined an object of type `t` named `name`, and nothing when no
      document did. */
  lemma ResolveAfterBuild(defs: seq<Definition>, t: ObjType, name: string)
    ensures Find(Built(map[], defs), XrefKey(t.Name(), name))
         == FirstDefinition(defs, TargetName(DirectiveName(t), name))
  {
    TargetIsXrefKey(t, name);
    BuiltFirstWins(map[], defs, XrefKey(t.Name(), name));
  }

  /** Two definitions: with different keys both are stored; with the same
      key the second does not overwrite the first. */
  lemma TwoDefinitions(a: Definition, b: Definition)
    ensures KeyOf(a) != KeyOf(b) ==>
      Find(Built(map[], [a, b]), KeyOf(a)) == Some(a.docname) &&
      Find(Built(map[], [a, b]), KeyOf(b)) == Some(b.docname)
    ensures KeyOf(a) == KeyOf(b) ==>
      Find(Built(map[], [a, b]), KeyOf(a)) == Some(a.docname)
  {
    BuiltFirstWins(map[], [a, b], KeyOf(a));
    BuiltFirstWins(map[], [a, b], KeyOf(b));
    assert [a, b][1..] == [b];
  }

  /** The registry of one build. `objects` is the domain's shared
      `objects` mapping; `ids` collects the anchor ids the signature nodes
      receive and `entries` the entries the index nodes receive, over all
      directives in the order they run. */
  class Domain {
    var objects: map<string, string>
    var ids: seq<string>
    var entries: seq<IndexEntry>

    /** Each registered key has exactly one anchor, and every registration
        left an index entry. */
    ghost predicate Valid()
      reads this
    {
      && (forall i, j :: 0 <= i < j < |ids| ==> ids[i] != ids[j])
      && (forall k :: k in objects <==> k in ids)
      && |ids| <= |entries|
    }

    /** The domain's initial data: no objects. */
    constructor ()
      ensures Valid()
      ensures objects == map[] && ids == [] && entries == []
    {
      objects := map[];
      ids := [];
      entries := [];
    }

    /** `AnsibleDomain.resolve_xref`: a reference to the document registered
        for `ansible.<typ>.<target>` at the anchor of that name, if any. */
    function Resolve(typ: string, target: string): (r: Option<Reference>)
      reads this
      ensures r.Some? <==> XrefKey(typ, target) in objects
      ensures r.Some? ==> r.value == Reference(objects[XrefKey(typ, target)], XrefKey(typ, target))
    {
      var key := XrefKey(typ, target);
      match Find(objects, key)
      case Some(docname) => Some(Reference(docname, key))
      case None => None
    }

    /** `AnsibleObject.add_target_and_index` for a directive of type `kind`
        and signature `name` in document `docname`: the key is stored only
        if absent and gets an anchor only then; an index entry is added
        either way; a reference to the object now resolves to the first
        document that registered it, at an anchor some signature received. */
    method Register(kind: ObjType, name: string, docname: string)
      modifies this
      ensures old(Valid()) ==> Valid()
      ensures var key := TargetName(DirectiveName(kind), name);
        && objects == InsertIfAbsent(old(objects), key, docname)
        && ids == old(ids) + (if key in old(objects) then [] else [key])
        && entries == old(entries) + [IndexEntry("single", name, key, "", None)]
        && Resolve(kind.Name(), name)
           == Some(Reference(if key in old(objects) then old(objects)[key] else docname, key))
    ensures old(Valid()) ==> Resolve(kind.Name(), name).value.anchor in ids
    {
      var key := TargetName(DirectiveName(kind), name);
      if key !in objects {
        objects := objects[key := docname];
        ids := ids + [key];
      }
      entries := entries + [IndexEntry("single", name, key, "", None)];
      TargetIsXrefKey(kind, name);
    }
  }
}
