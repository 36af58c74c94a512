/** The markup the directives hand to the host framework's parser: the
    summary and sections of a plugin page (`AnsiblePluginDirective.run`),
    one child directive per option or return value
    (`AnsiblePluginObjectsDirective.run`), the page of one option or return
    value (`AnsiblePluginObjectDirective.run`) and the examples code block
    (`AnsiblePluginExamplesDirective.run`). */
module Render {
  import opened Common
  import opened Strings
  import opened Names
  import opened Json

  /** A `- **key**: text` bullet line. */
  function Bullet(key: string, text: string): string
  {
    "- **" + key + "**: " + text
  }

  // ---------------------------------------------------------------------
  // The plugin page

  /** The `doc` entries the summary shows: all but `examples` and the
      dict-valued ones. */
  predicate Summarised(field: (string, Json))
  {
    field.0 != "examples" && !field.1.Dict?
  }

  /** How the summary prints a value that is not a dict: a list joined with
      commas, anything else as Python's `str()` prints it. */
  function SummaryText(v: Json): string
    requires !v.Dict?
  {
    match v
    case Str(s) => s
    case List(items) => Join(items, ", ")
    case Scalar(shown, _) => shown
  }

  /** `rst` is one bullet per field of `kept`, in order, and nothing else. */
  ghost predicate Bullets(rst: seq<string>, kept: seq<(string, Json)>)
    requires forall i :: 0 <= i < |kept| ==> !kept[i].1.Dict?
  {
    |rst| == |kept| &&
    forall i :: 0 <= i < |rst| ==> rst[i] == Bullet(kept[i].0, SummaryText(kept[i].1))
  }

  /** `rst` is the summary of `doc`: one bullet per shown entry, in the
      order of `doc`, and nothing else. */
  ghost predicate IsSummaryOf(rst: seq<string>, doc: seq<(string, Json)>)
  {
    Bullets(rst, Filter(doc, Summarised))
  }

  lemma BulletsSnoc(rst: seq<string>, kept: seq<(string, Json)>, field: (string, Json))
    requires forall i :: 0 <= i < |kept| ==> !kept[i].1.Dict?
    requires !field.1.Dict?
    requires Bullets(rst, kept)
    ensures Bullets(rst + [Bullet(field.0, SummaryText(field.1))], kept + [field])
  {
  }

  /** The summary loop of `AnsiblePluginDirective.run`. */
  method PluginSummary(doc: seq<(string, Json)>) returns (rst: seq<string>)
    ensures IsSummaryOf(rst, doc)
  {
    rst := [];
    for i := 0 to |doc|
      invariant IsSummaryOf(rst, doc[..i])
    {
      var (key, value) := doc[i];
      ghost var before := Filter(doc[..i], Summarised);
      assert Filter(doc[..i + 1], Summarised) == before + Filter([doc[i]], Summarised) by {
        assert doc[..i + 1] == doc[..i] + [doc[i]];
        FilterAppend(doc[..i], [doc[i]], Summarised);
      }
      if key == "examples" {
        assert Filter([doc[i]], Summarised) == [];
        assert before + [] == before;
        continue;
      }
      if value.Dict? {
        assert Filter([doc[i]], Summarised) == [];
        assert before + [] == before;
        continue;
      }
      assert Filter([doc[i]], Summarised) == [doc[i]];
      var text := if value.List? then Join(value.items, ", ") else SummaryText(value);
      assert text == SummaryText(value);
      BulletsSnoc(rst, before, doc[i]);
      rst := rst + [Bullet(key, text)];
    }
    assert doc[..|doc|] == doc;
  }

  /** The sections a plugin page may have, in the order they are added. */
  datatype Section = OptionsSection | ExamplesSection | ReturnSection
  {
    function Title(): string
    {
      match this
      case OptionsSection => "Options"
      case ExamplesSection => "Examples"
      case ReturnSection => "Return"
    }

    /** The object type of the directive the section holds. */
    function Directive(): ObjType
    {
      match this
      case OptionsSection => OptionsObj
      case ExamplesSection => ExamplesObj
      case ReturnSection => ReturnsObj
    }

    function Rank(): nat
    {
      match this
      case OptionsSection => 0
      case ExamplesSection => 1
      case ReturnSection => 2
    }
  }

  /** The sections of a plugin page whose top-level fields are `plugin` and
      whose documentation block is `doc`: Options when `doc` has truthy
      options, Examples when the plugin has examples, Return when it has a
      return block, always in that order. */
  function Sections(plugin: seq<(string, Json)>, doc: seq<(string, Json)>): (r: seq<Section>)
    ensures OptionsSection in r <==> (Lookup(doc, "options").Some? && Truthy(Lookup(doc, "options").value))
    ensures ExamplesSection in r <==> Lookup(plugin, "examples").Some?
    ensures ReturnSection in r <==> Lookup(plugin, "return").Some?
    ensures forall i, j :: 0 <= i < j < |r| ==> r[i].Rank() < r[j].Rank()
  {
    var options := Lookup(doc, "options");
    (if options.Some? && Truthy(options.value) then [OptionsSection] else [])
    + (if Lookup(plugin, "examples").Some? then [ExamplesSection] else [])
    + (if Lookup(plugin, "return").Some? then [ReturnSection] else [])
  }

  /** What a section holds: its title, the text its anchor id is made from,
      and the directive line parsed into it. */
  datatype SectionMarkup = SectionMarkup(title: string, anchor: string, rst: string)

  /** The directive line `.. ansible:<type>:: <argument>`. */
  function DirectiveLine(t: ObjType, argument: string): string
  {
    ".. " + DirectiveName(t) + ":: " + argument
  }

  function SectionOf(s: Section, argument: string): SectionMarkup
  {
    var lower := match s
      case OptionsSection => "options"
      case ExamplesSection => "examples"
      case ReturnSection => "return";
    SectionMarkup(s.Title(), argument + "-" + lower, DirectiveLine(s.Directive(), argument))
  }

  /** The markup of the sections `kinds`, in their order. */
  function Markups(kinds: seq<Section>, argument: string): (r: seq<SectionMarkup>)
    ensures |r| == |kinds|
    ensures forall i :: 0 <= i < |kinds| ==> r[i] == SectionOf(kinds[i], argument)
  {
    if kinds == [] then []
    else Markups(kinds[..|kinds| - 1], argument) + [SectionOf(kinds[|kinds| - 1], argument)]
  }

  lemma MarkupsSnoc(kinds: seq<Section>, s: Section, argument: string)
    ensures Markups(kinds + [s], argument) == Markups(kinds, argument) + [SectionOf(s, argument)]
  {
    assert (kinds + [s])[..|kinds|] == kinds;
  }

  /** The markup of a plugin page: the summary lines and the sections. */
  datatype PluginPage = PluginPage(summary: seq<string>, sections: seq<SectionMarkup>)

  /** The section part of `AnsiblePluginDirective.run`: an Options section
      when `doc` has truthy options, then an Examples section when the
      descriptor has examples, then a Return section when it has a return
      block, each holding its directive for `argument`. */
  method PageSections(plugin: seq<(string, Json)>, doc: seq<(string, Json)>, argument: string)
    returns (sections: seq<SectionMarkup>)
    ensures sections == Markups(Sections(plugin, doc), argument)
  {
    var options := Lookup(doc, "options");
    var hasOptions := options.Some? && Truthy(options.value);
    var hasExamples := Lookup(plugin, "examples").Some?;
    var hasReturn := Lookup(plugin, "return").Some?;
    ghost var first := if hasOptions then [OptionsSection] else [];
    ghost var second := if hasExamples then [ExamplesSection] else [];
    ghost var third := if hasReturn then [ReturnSection] else [];
    assert first + second + third == Sections(plugin, doc);
    sections := [];
    ghost var added := [];
    if hasOptions {
      sections := sections + [SectionOf(OptionsSection, argument)];
      MarkupsSnoc(added, OptionsSection, argument);
      added := added + [OptionsSection];
    }
    assert added == first && sections == Markups(added, argument);
    if hasExamples {
      sections := sections + [SectionOf(ExamplesSection, argument)];
      MarkupsSnoc(added, ExamplesSection, argument);
      added := added + [ExamplesSection];
    }
    assert added == first + second && sections == Markups(added, argument);
    if hasReturn {
      sections := sections + [SectionOf(ReturnSection, argument)];
      MarkupsSnoc(added, ReturnSection, argument);
      added := added + [ReturnSection];
    }
    assert added == first + second + third;
  }

  /** `AnsiblePluginDirective.run`: fails when the descriptor or its `doc`
      block is not a dict; otherwise the summary of `doc` and the sections
      `Sections` picks, each holding its directive for the same argument. */
  method PluginPageOf(plugin: Json, argument: string) returns (r: Result<PluginPage>)
    ensures r.Err? <==> DocOf(plugin).Err? || !DocOf(plugin).value.Dict?
    ensures r.Ok? ==> IsSummaryOf(r.value.summary, DocOf(plugin).value.fields)
    ensures r.Ok? ==>
      r.value.sections == Markups(Sections(plugin.fields, DocOf(plugin).value.fields), argument)
  {
    var doc := DocOf(plugin);
    if doc.Err? || !doc.value.Dict? {
      return Err(NotAMapping);
    }
    var summary := PluginSummary(doc.value.fields);
    var sections := PageSections(plugin.fields, doc.value.fields, argument);
    r := Ok(PluginPage(summary, sections));
  }

  // ---------------------------------------------------------------------
  // The objects directives: one child directive per key

  /** The child directive line for `key`: `.. ansible:<typ>:: <plugin>.<key>`. */
  function ChildLine(t: ObjType, plugin: string, key: string): string
  {
    DirectiveLine(t, ChildArgument(plugin, key)) + "\n"
  }

  /** The loop of `AnsiblePluginObjectsDirective.run`: one child line per
      key of `fields`, in key order, each naming `plugin`. */
  method ChildLinesOf(t: ObjType, plugin: string, fields: seq<(string, Json)>) returns (lines: seq<string>)
    ensures |lines| == |fields|
    ensures forall i :: 0 <= i < |fields| ==> lines[i] == ChildLine(t, plugin, fields[i].0)
  {
    lines := [];
    for i := 0 to |fields|
      invariant |lines| == i
      invariant forall j :: 0 <= j < i ==> lines[j] == ChildLine(t, plugin, fields[j].0)
    {
      lines := lines + [ChildLine(t, plugin, fields[i].0)];
    }
  }

  /** `AnsiblePluginObjectsDirective.run` with directive argument
      `argument`: one child directive per key of the mapping, in key order,
      each naming the plugin of the argument; a value that is not a dict is
      an error, since it has no `.keys()`. */
  method ChildDirectives(t: ObjType, argument: string, obj: Json) returns (r: Result<seq<string>>)
    ensures r.Ok? <==> obj.Dict?
    ensures r.Ok? ==>
      && |r.value| == |obj.fields|
      && forall i :: 0 <= i < |obj.fields| ==> r.value[i] == ChildLine(t, PluginName(argument), obj.fields[i].0)
  {
    if !obj.Dict? {
      return Err(NotAMapping);
    }
    var plugin := PluginName(argument);
    var lines := ChildLinesOf(t, plugin, obj.fields);
    r := Ok(lines);
  }

  /** Each child directive the options directive emits finds its own option
      again: its plugin name is the parent's, and the lookup by its object
      name yields the value stored under that key. */
  lemma ChildFindsOption(plugin: Json, name: string, key: string, value: Json)
    requires |Split(name, '.')| == 3 && ' ' !in name && '.' !in key
    requires OptionsOf(plugin).Ok? && OptionsOf(plugin).value.Dict?
    requires Lookup(OptionsOf(plugin).value.fields, key) == Some(value)
    ensures PluginName(ChildArgument(name, key)) == name
    ensures OptionOf(plugin, ObjectName(ChildArgument(name, key))) == Ok(value)
  {
    ChildArgumentRoundTrip(name, key);
  }

  /** The same for the return values the returns directive lists. */
  lemma ChildFindsReturn(plugin: Json, name: string, key: string, value: Json)
    requires |Split(name, '.')| == 3 && ' ' !in name && '.' !in key
    requires ReturnsOf(plugin).Ok? && ReturnsOf(plugin).value.Dict?
    requires Lookup(ReturnsOf(plugin).value.fields, key) == Some(value)
    ensures PluginName(ChildArgument(name, key)) == name
    ensures ReturnOf(plugin, ObjectName(ChildArgument(name, key))) == Ok(value)
  {
    ChildArgumentRoundTrip(name, key);
  }

  // ---------------------------------------------------------------------
  // The page of one option or return value

  predicate NotDescription(field: (string, Json))
  {
    field.0 != "description"
  }

  /** The description paragraph: nothing when the description is falsy, a
      list of paragraphs joined with blank lines, a string as it is; any
      other value cannot be appended to the leading newline. */
  function DescriptionText(d: Json): (r: Result<Option<string>>)
    ensures r.Ok? <==> !Truthy(d) || d.Str? || d.List?
    ensures r == Ok(None) <==> !Truthy(d)
    ensures d.Str? && Truthy(d) ==> r == Ok(Some("\n" + d.s))
    ensures d.List? && Truthy(d) ==> r == Ok(Some("\n" + Join(d.items, "\n\n")))
  {
    if !Truthy(d) then Ok(None)
    else match d
      case Str(s) => Ok(Some("\n" + s))
      case List(items) => Ok(Some("\n" + Join(items, "\n\n")))
      case _ => Err(NotText)
  }

  /** How an object page prints a field value: a list joined with single
      spaces, a dict as `reprDict` prints it (Python's `str()` of a dict,
      which is not modelled), anything else as Python's `str()`. */
  function FieldText(v: Json, reprDict: seq<(string, Json)> -> string): string
  {
    match v
    case Str(s) => s
    case List(items) => Join(items, " ")
    case Dict(fields) => reprDict(fields)
    case Scalar(shown, _) => shown
  }

  /** The markup of an option or return value: its description, if any,
      and one bullet per other field. */
  datatype ObjectPage = ObjectPage(description: Option<string>, bullets: seq<string>)

  /** `AnsiblePluginObjectDirective.run`: `description` is popped first and
      must be present; the list comprehension then bullets the remaining
      fields in order. */
  function ObjectPageOf(obj: Json, reprDict: seq<(string, Json)> -> string): (r: Result<ObjectPage>)
    ensures !obj.Dict? ==> r == Err(NotAMapping)
    ensures obj.Dict? && Lookup(obj.fields, "description").None? ==> r == Err(MissingKey("description"))
    ensures r.Ok? <==> obj.Dict? && Lookup(obj.fields, "description").Some?
                       && DescriptionText(Lookup(obj.fields, "description").value).Ok?
    ensures r.Ok? ==>
      var rest := Filter(obj.fields, NotDescription);
      && r.value.description == DescriptionText(Lookup(obj.fields, "description").value).value
      && |r.value.bullets| == |rest|
      && (forall i :: 0 <= i < |rest| ==> rest[i].0 != "description")
      && forall i :: 0 <= i < |rest| ==> r.value.bullets[i] == Bullet(rest[i].0, FieldText(rest[i].1, reprDict))
  {
    if !obj.Dict? then Err(NotAMapping)
    else
      match Lookup(obj.fields, "description")
      case None => Err(MissingKey("description"))
      case Some(d) =>
        var description :- DescriptionText(d);
        var rest := Filter(obj.fields, NotDescription);
        var bullets := seq(|rest|, i requires 0 <= i < |rest| => Bullet(rest[i].0, FieldText(rest[i].1, reprDict)));
        Ok(ObjectPage(description, bullets))
  }

  // ---------------------------------------------------------------------
  // The examples code block

  const CodeDirective := ".. code:: yaml"

  /** `AnsiblePluginExamplesDirective.run`: the examples text in a YAML code
      block, every line after its first indented by two spaces; a value
      that is not a string cannot be split. */
  function CodeBlock(examples: Json): (r: Result<string>)
    ensures r.Ok? <==> examples.Str?
  {
    if !examples.Str? then Err(NotText)
    else Ok(CodeDirective + "\n" + Join(Split(examples.s, '\n'), "\n  ") + "\n")
  }

  /** Joining lines with a newline and a two-space pad, then splitting at
      newlines, gives the first line as it is and every further line padded. */
  lemma {:induction false} SplitIndented(lines: seq<string>)
    requires |lines| >= 1
    requires forall i :: 0 <= i < |lines| ==> '\n' !in lines[i]
    ensures Split(Join(lines, "\n  "), '\n') == [lines[0]] + Prefixed("  ", lines[1..])
  {
    var padded := [lines[0]] + Prefixed("  ", lines[1..]);
    assert "\n  " == ['\n'] + "  ";
    JoinPadded(lines, '\n', "  ");
    forall i | 0 <= i < |padded|
      ensures '\n' !in padded[i]
    {
      if i > 0 {
        assert padded[i] == "  " + lines[i];
      }
    }
    SplitJoin(padded, '\n');
  }

  /** A line free of newlines, a newline, a body and a closing newline
      split into the line, the body's pieces and an empty last piece. */
  lemma SplitBetween(head: string, body: string)
    requires '\n' !in head
    ensures Split(head + "\n" + body + "\n", '\n') == [head] + Split(body, '\n') + [""]
  {
    assert head + "\n" + body + "\n" == head + ['\n'] + (body + ['\n'] + []);
    SplitAround(body, [], '\n');
    SplitNoSeparator([], '\n');
    SplitAround(head, body + ['\n'] + [], '\n');
    SplitNoSeparator(head, '\n');
  }

  /** A line, a newline, lines joined with a newline and a two-space pad,
      and a closing newline split into the line, the first of the lines,
      the padded further lines and an empty last line. */
  lemma SplitFramed(head: string, lines: seq<string>)
    requires '\n' !in head
    requires |lines| >= 1
    requires forall i :: 0 <= i < |lines| ==> '\n' !in lines[i]
    ensures Split(head + "\n" + Join(lines, "\n  ") + "\n", '\n')
         == [head, lines[0]] + Prefixed("  ", lines[1..]) + [""]
  {
    var body := Join(lines, "\n  ");
    var padded := Prefixed("  ", lines[1..]);
    assert Split(body, '\n') == [lines[0]] + padded by {
      SplitIndented(lines);
    }
    assert Split(head + "\n" + body + "\n", '\n') == [head] + Split(body, '\n') + [""] by {
      SplitBetween(head, body);
    }
    assert [head] + ([lines[0]] + padded) + [""] == [head, lines[0]] + padded + [""];
  }

  /** The lines of the code block: the directive, the first line of the
      examples as it is, every further line indented by two spaces, and the
      empty line after the closing newline. */
  lemma CodeBlockLines(text: string)
    ensures var lines := Split(text, '\n');
      Split(CodeBlock(Str(text)).value, '\n')
        == [CodeDirective, lines[0]] + Prefixed("  ", lines[1..]) + [""]
  {
    assert '\n' !in CodeDirective;
    SplitFramed(CodeDirective, Split(text, '\n'));
  }
}
