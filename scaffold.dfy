/** The scaffolding pass (`generate_roles`, `generate_modules`,
    `generate`): one documentation page per role and per module, and an
    index page listing them in the order the source directory lists them.
    The directory listings are inputs and the written files are returned as
    a sequence of (path, contents) writes, applied by `Written`. */
module Scaffold {
  import opened Common
  import opened Strings
  import opened Names
  import Render

  // ---------------------------------------------------------------------
  // Files

  /** The docs tree after `writes` have been made in order, each opening its
      file with `w` or `w+` and so replacing what was there. */
  function Written(files: map<string, string>, writes: seq<(string, string)>): map<string, string>
    decreases |writes|
  {
    if writes == [] then files
    else Written(files[writes[0].0 := writes[0].1], writes[1..])
  }

  /** The effect of a sequence of writes does not depend on what was there:
      it is laid over the old tree. */
  lemma {:induction false} WrittenOver(files: map<string, string>, writes: seq<(string, string)>)
    ensures Written(files, writes) == files + Written(map[], writes)
    decreases |writes|
  {
    if writes != [] {
      var (path, text) := writes[0];
      WrittenOver(files[path := text], writes[1..]);
      WrittenOver(map[path := text], writes[1..]);
      var rest := Written(map[], writes[1..]);
      assert files[path := text] == files + map[path := text];
      assert (files + map[path := text]) + rest == files + (map[path := text] + rest);
    }
  }

  /** Regenerating from the same listing gives the same tree: nothing
      accumulates. */
  lemma WrittenIdempotent(files: map<string, string>, writes: seq<(string, string)>)
    ensures Written(Written(files, writes), writes) == Written(files, writes)
  {
    var effect := Written(map[], writes);
    WrittenOver(files, writes);
    WrittenOver(files + effect, writes);
    assert (files + effect) + effect == files + effect;
  }

  /** A file holds what the last write to it wrote. */
  lemma {:induction false} WrittenLast(files: map<string, string>, writes: seq<(string, string)>, path: string, text: string)
    ensures var after := Written(files, writes + [(path, text)]);
      path in after && after[path] == text
    decreases |writes|
  {
    if writes == [] {
      assert writes + [(path, text)] == [(path, text)];
      assert [(path, text)][1..] == [];
    } else {
      assert (writes + [(path, text)])[1..] == writes[1..] + [(path, text)];
      WrittenLast(files[writes[0].0 := writes[0].1], writes[1..], path, text);
    }
  }

  // ---------------------------------------------------------------------
  // The index page

  const RolesHeader := "Role documentation\n==================\n\n.. _Roles_list:\n\n.. toctree::\n   :maxdepth: 1\n   :caption: Roles:\n"
  const ModulesHeader := "Module documentation\n====================\n\n.. _modules_list:\n\n.. toctree::\n   :maxdepth: 1\n   :caption: modules:\n"

  /** The header followed by `\n   name` for each name, in order. */
  function IndexText(header: string, names: seq<string>): (r: string)
    ensures header <= r
    decreases |names|
  {
    if names == [] then header
    else IndexText(header, names[..|names| - 1]) + "\n   " + names[|names| - 1]
  }

  /** Appending a newline and an indented line that holds no newline adds
      that one line to the pieces. */
  lemma SplitIndentedLine(before: string, last: string)
    requires '\n' !in last
    ensures Split(before + "\n   " + last, '\n') == Split(before, '\n') + ["   " + last]
  {
    var line := "   " + last;
    assert before + "\n   " + last == before + ['\n'] + line by {
      assert "\n   " == ['\n'] + "   ";
    }
    SplitAround(before, line, '\n');
    SplitNoSeparator(line, '\n');
  }

  /** The index lists exactly the given names, in order, one indented line
      each, after the header's lines. */
  lemma {:induction false} IndexLines(header: string, names: seq<string>)
    requires forall i :: 0 <= i < |names| ==> '\n' !in names[i]
    ensures Split(IndexText(header, names), '\n') == Split(header, '\n') + Prefixed("   ", names)
    decreases |names|
  {
    if names != [] {
      var init, last := names[..|names| - 1], names[|names| - 1];
      var before := IndexText(header, init);
      assert Split(before, '\n') == Split(header, '\n') + Prefixed("   ", init) by {
        IndexLines(header, init);
      }
      assert Split(IndexText(header, names), '\n') == Split(before, '\n') + ["   " + last] by {
        assert IndexText(header, names) == before + "\n   " + last;
        SplitIndentedLine(before, last);
      }
      assert Prefixed("   ", names) == Prefixed("   ", init) + ["   " + last] by {
        assert names == init + [last];
      }
      assert (Split(header, '\n') + Prefixed("   ", init)) + ["   " + last]
          == Split(header, '\n') + (Prefixed("   ", init) + ["   " + last]);
    }
  }

  /** The index-writing loop: start from the header, append one line per name. */
  method WriteIndex(header: string, names: seq<string>) returns (text: string)
    ensures text == IndexText(header, names)
  {
    text := header;
    for i := 0 to |names|
      invariant text == IndexText(header, names[..i])
    {
      assert names[..i + 1][..i] == names[..i];
      text := text + "\n   " + names[i];
    }
    assert names[..|names|] == names;
  }

  // ---------------------------------------------------------------------
  // Roles

  /** One directory under `roles/`: its name and, when it holds a
      `README.md`, that file's contents. */
  datatype RoleDir = RoleDir(name: string, readme: Option<string>)

  predicate HasReadme(role: RoleDir)
  {
    role.readme.Some?
  }

  const RolesIndex := "roles/index.rst"

  function RoleNames(roles: seq<RoleDir>): (r: seq<string>)
    ensures |r| == |roles|
  {
    seq(|roles|, i requires 0 <= i < |roles| => roles[i].name)
  }

  /** The README of each documented role copied to `roles/<name>.md`. */
  function RolePages(roles: seq<RoleDir>): (r: seq<(string, string)>)
    requires forall i :: 0 <= i < |roles| ==> HasReadme(roles[i])
    ensures |r| == |roles|
  {
    seq(|roles|, i requires 0 <= i < |roles| && HasReadme(roles[i]) => ("roles/" + roles[i].name + ".md", roles[i].readme.value))
  }

  lemma RolesSnoc(roles: seq<RoleDir>, role: RoleDir)
    requires forall i :: 0 <= i < |roles| ==> HasReadme(roles[i])
    requires HasReadme(role)
    ensures RoleNames(roles + [role]) == RoleNames(roles) + [role.name]
    ensures RolePages(roles + [role]) == RolePages(roles) + [("roles/" + role.name + ".md", role.readme.value)]
  {
  }

  /** Everything `generate_roles` writes for a listing: the copied READMEs,
      then the index of the roles that have one. */
  function RoleWrites(listing: seq<RoleDir>): seq<(string, string)>
  {
    var kept := Filter(listing, HasReadme);
    RolePages(kept) + [(RolesIndex, IndexText(RolesHeader, RoleNames(kept)))]
  }

  /** `generate_roles`: the first loop keeps the roles that have a README
      and copies it, the second writes the index. */
  method GenerateRoles(listing: seq<RoleDir>) returns (names: seq<string>, writes: seq<(string, string)>)
    ensures names == RoleNames(Filter(listing, HasReadme))
    ensures writes == RoleWrites(listing)
  {
    names, writes := [], [];
    for i := 0 to |listing|
      invariant names == RoleNames(Filter(listing[..i], HasReadme))
      invariant writes == RolePages(Filter(listing[..i], HasReadme))
    {
      var role := listing[i];
      ghost var before := Filter(listing[..i], HasReadme);
      assert Filter(listing[..i + 1], HasReadme) == before + Filter([role], HasReadme) by {
        assert listing[..i + 1] == listing[..i] + [role];
        FilterAppend(listing[..i], [role], HasReadme);
      }
      if role.readme.None? {
        assert Filter([role], HasReadme) == [];
        assert before + [] == before;
        continue;
      }
      assert Filter(listing[..i + 1], HasReadme) == before + [role];
      RolesSnoc(before, role);
      names := names + [role.name];
      writes := writes + [("roles/" + role.name + ".md", role.readme.value)];
    }
    assert listing[..|listing|] == listing;
    var index := WriteIndex(RolesHeader, names);
    writes := writes + [(RolesIndex, index)];
  }

  /** After the roles pass, whatever the docs tree held before, the roles
      index lists exactly the roles that have a README, in listing order. */
  lemma RolesIndexAfterGenerate(files: map<string, string>, listing: seq<RoleDir>)
    requires forall i :: 0 <= i < |listing| ==> '\n' !in listing[i].name
    ensures var after := Written(files, RoleWrites(listing));
      && RolesIndex in after
      && Split(after[RolesIndex], '\n')
         == Split(RolesHeader, '\n') + Prefixed("   ", RoleNames(Filter(listing, HasReadme)))
  {
    var kept := Filter(listing, HasReadme);
    var names := RoleNames(kept);
    WrittenLast(files, RolePages(kept), RolesIndex, IndexText(RolesHeader, names));
    forall i | 0 <= i < |names|
      ensures '\n' !in names[i]
    {
      assert kept[i] in kept;
    }
    IndexLines(RolesHeader, names);
  }

  // ---------------------------------------------------------------------
  // Modules

  /** `collection_prefix`: `<namespace>.<name>` from `galaxy.yml`. */
  function CollectionPrefix(galaxy: map<string, string>): (r: Result<string>)
    ensures "namespace" !in galaxy ==> r == Err(MissingKey("namespace"))
    ensures "namespace" in galaxy && "name" !in galaxy ==> r == Err(MissingKey("name"))
    ensures r.Ok? <==> "namespace" in galaxy && "name" in galaxy
    ensures r.Ok? ==> Split(r.value, '.') == Split(galaxy["namespace"], '.') + Split(galaxy["name"], '.')
  {
    if "namespace" !in galaxy then Err(MissingKey("namespace"))
    else if "name" !in galaxy then Err(MissingKey("name"))
    else
      var namespace, name := galaxy["namespace"], galaxy["name"];
      assert Join([namespace, name], ".") == namespace + ['.'] + name;
      SplitAround(namespace, name, '.');
      Ok(Join([namespace, name], "."))
  }

  /** Python's `name[:-3]`, meant to strip `.py`: everything but the last
      three characters, and nothing for a shorter name. */
  function StripPy(file: string): (r: string)
    ensures |file| >= 3 ==> r + file[|file| - 3..] == file
    ensures |file| < 3 ==> r == ""
  {
    if |file| >= 3 then file[..|file| - 3] else ""
  }

  predicate IsModuleFile(file: string)
  {
    file != "__init__.py"
  }

  const ModulesIndex := "modules/index.rst"

  const Underline := "==========================="

  /** The stub page `generate_modules` writes for a module, as
      `textwrap.dedent` leaves it: a title, its underline and the plugin
      directive for `<prefix>.<stem>`, where `stem` is the module name.
      For names without newlines its lines are an empty line, the title,
      the underline, an empty line, the directive line and a final empty
      line. */
  function ModuleStub(prefix: string, stem: string): (r: string)
    ensures '\n' !in prefix && '\n' !in stem ==>
      Split(r, '\n') == ["", prefix + "." + stem, Underline, "",
                         Render.DirectiveLine(PluginObj, prefix + "." + stem), ""]
  {
    var plugin := prefix + "." + stem;
    var line := Render.DirectiveLine(PluginObj, plugin);
    var r := "\n" + plugin + "\n" + Underline + "\n\n" + line + "\n";
    assert '\n' !in prefix && '\n' !in stem ==> Split(r, '\n') == ["", plugin, Underline, "", line, ""] by {
      if '\n' !in prefix && '\n' !in stem {
        assert '\n' !in plugin;
        assert '\n' !in line;
        StubLines(plugin, line);
      }
    }
    r
  }

  /** The line structure of a stub, over any title and directive line
      without newlines. */
  lemma StubLines(plugin: string, line: string)
    requires '\n' !in plugin && '\n' !in line
    ensures Split("\n" + plugin + "\n" + Underline + "\n\n" + line + "\n", '\n')
         == ["", plugin, Underline, "", line, ""]
  {
    var nl := ['\n'];
    var u := Underline;
    assert '\n' !in u;
    var t5 := line + nl + [];
    var t4 := [] + nl + t5;
    var t3 := u + nl + t4;
    var t2 := plugin + nl + t3;
    var t1 := [] + nl + t2;
    assert "\n" + plugin + "\n" + Underline + "\n\n" + line + "\n" == t1;
    assert Split(t5, '\n') == [line, ""] by {
      SplitHead(line, [], '\n');
      SplitNoSeparator([], '\n');
    }
    assert Split(t4, '\n') == ["", line, ""] by {
      SplitHead([], t5, '\n');
    }
    assert Split(t3, '\n') == [u, "", line, ""] by {
      SplitHead(u, t4, '\n');
    }
    assert Split(t2, '\n') == [plugin, u, "", line, ""] by {
      SplitHead(plugin, t3, '\n');
    }
    assert Split(t1, '\n') == ["", plugin, u, "", line, ""] by {
      SplitHead([], t2, '\n');
    }
  }

  function ModuleNames(files: seq<string>): (r: seq<string>)
    ensures |r| == |files|
  {
    seq(|files|, i requires 0 <= i < |files| => StripPy(files[i]))
  }

  function ModulePages(prefix: string, names: seq<string>): (r: seq<(string, string)>)
    ensures |r| == |names|
  {
    seq(|names|, i requires 0 <= i < |names| => ("modules/" + names[i] + ".rst", ModuleStub(prefix, names[i])))
  }

  lemma ModuleNamesSnoc(files: seq<string>, file: string)
    ensures ModuleNames(files + [file]) == ModuleNames(files) + [StripPy(file)]
  {
  }

  lemma ModulePagesSnoc(prefix: string, names: seq<string>, stem: string)
    ensures ModulePages(prefix, names + [stem])
         == ModulePages(prefix, names) + [("modules/" + stem + ".rst", ModuleStub(prefix, stem))]
  {
  }

  /** Everything `generate_modules` writes for a listing: one stub per
      module file other than `__init__.py`, then the index of them. */
  function ModuleWrites(prefix: string, listing: seq<string>): seq<(string, string)>
  {
    var names := ModuleNames(Filter(listing, IsModuleFile));
    ModulePages(prefix, names) + [(ModulesIndex, IndexText(ModulesHeader, names))]
  }

  /** `generate_modules` once the prefix is known: the first loop skips
      `__init__.py` and writes a stub per other file, the second writes the
      index. */
  method GenerateModules(prefix: string, listing: seq<string>) returns (names: seq<string>, writes: seq<(string, string)>)
    ensures names == ModuleNames(Filter(listing, IsModuleFile))
    ensures writes == ModuleWrites(prefix, listing)
  {
    names, writes := [], [];
    for i := 0 to |listing|
      invariant names == ModuleNames(Filter(listing[..i], IsModuleFile))
      invariant writes == ModulePages(prefix, names)
    {
      var file := listing[i];
      ghost var before := Filter(listing[..i], IsModuleFile);
      assert Filter(listing[..i + 1], IsModuleFile) == before + Filter([file], IsModuleFile) by {
        assert listing[..i + 1] == listing[..i] + [file];
        FilterAppend(listing[..i], [file], IsModuleFile);
      }
      if file == "__init__.py" {
        assert Filter([file], IsModuleFile) == [];
        assert before + [] == before;
        continue;
      }
      assert Filter(listing[..i + 1], IsModuleFile) == before + [file];
      var stem := StripPy(file);
      ModuleNamesSnoc(before, file);
      ModulePagesSnoc(prefix, names, stem);
      names := names + [stem];
      writes := writes + [("modules/" + stem + ".rst", ModuleStub(prefix, stem))];
    }
    assert listing[..|listing|] == listing;
    var index := WriteIndex(ModulesHeader, names);
    writes := writes + [(ModulesIndex, index)];
  }

  /** After the modules pass the index lists exactly the module files other
      than `__init__.py`, each with its last three characters cut, in
      listing order, whatever the docs tree held before (including a stub
      for a module named `index`, which the index overwrites). */
  lemma ModulesIndexAfterGenerate(files: map<string, string>, prefix: string, listing: seq<string>)
    requires forall i :: 0 <= i < |listing| ==> '\n' !in listing[i]
    ensures var after := Written(files, ModuleWrites(prefix, listing));
      && ModulesIndex in after
      && Split(after[ModulesIndex], '\n')
         == Split(ModulesHeader, '\n') + Prefixed("   ", ModuleNames(Filter(listing, IsModuleFile)))
  {
    var kept := Filter(listing, IsModuleFile);
    var names := ModuleNames(kept);
    WrittenLast(files, ModulePages(prefix, names), ModulesIndex, IndexText(ModulesHeader, names));
    forall i | 0 <= i < |names|
      ensures '\n' !in names[i]
    {
      assert kept[i] in kept;
      assert names[i] <= kept[i];
    }
    IndexLines(ModulesHeader, names);
  }

  /** A module file `<stem>.py` becomes a stub whose plugin directive
      names `<namespace>.<name>.<stem>`, and that argument is its own
      plugin name when none of the three parts holds a dot or a space. */
  lemma StubNamesItsPlugin(galaxy: map<string, string>, stem: string)
    requires "namespace" in galaxy && "name" in galaxy
    requires '.' !in galaxy["namespace"] && ' ' !in galaxy["namespace"]
    requires '.' !in galaxy["name"] && ' ' !in galaxy["name"]
    requires '.' !in stem && ' ' !in stem
    ensures StripPy(stem + ".py") == stem
    ensures var plugin := CollectionPrefix(galaxy).value + "." + stem;
      PluginName(plugin) == plugin
  {
    var prefix := CollectionPrefix(galaxy).value;
    var parts := [galaxy["namespace"], galaxy["name"]];
    assert parts[1..] == [galaxy["name"]];
    assert prefix == Join(parts, ".") == galaxy["namespace"] + "." + galaxy["name"];
    assert (stem + ".py")[..|stem|] == stem;
    SplitNoSeparator(galaxy["namespace"], '.');
    SplitNoSeparator(galaxy["name"], '.');
    SplitNoSeparator(stem, '.');
    SplitAround(prefix, stem, '.');
    assert prefix + "." + stem == prefix + ['.'] + stem;
    PluginNameOfPlain(prefix + "." + stem);
  }

  /** `generate`: the roles pass, then the modules pass. A `galaxy.yml`
      without a namespace or name stops the modules pass before it writes
      anything, after the roles pass has written its files. */
  method Generate(roles: seq<RoleDir>, galaxy: map<string, string>, modules: seq<string>)
    returns (writes: seq<(string, string)>, fault: Option<Fault>)
    ensures CollectionPrefix(galaxy).Err? ==>
      writes == RoleWrites(roles) && fault == Some(CollectionPrefix(galaxy).fault)
    ensures CollectionPrefix(galaxy).Ok? ==>
      writes == RoleWrites(roles) + ModuleWrites(CollectionPrefix(galaxy).value, modules) && fault == None
  {
    var roleNames, roleWrites := GenerateRoles(roles);
    writes := roleWrites;
    var prefix := CollectionPrefix(galaxy);
    if prefix.Err? {
      return writes, Some(prefix.fault);
    }
    var moduleNames, moduleWrites := GenerateModules(prefix.value, modules);
    writes := writes + moduleWrites;
    fault := None;
  }
}
