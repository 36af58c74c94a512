/** The dotted names the directives are addressed by: the plugin and object
    names read off a directive's argument (`PluginMixin`), the argument the
    objects directives give their children, and the qualified key under
    which an object is registered and looked up. */
module Names {
  import opened Strings

  /** Python's `s[:n]`: at most the first `n` elements. */
  function Take<T>(s: seq<T>, n: nat): (r: seq<T>)
    ensures |r| == if |s| <= n then |s| else n
    ensures r <= s
  {
    if |s| <= n then s else s[..n]
  }

  /** `PluginMixin.plugin_name`: the first three dot-separated segments of
      the argument, joined again with dots, cut at the first space. The
      result is a prefix of the argument, holds no space and at most two
      dots. */
  function PluginName(arg: string): (r: string)
    ensures r <= arg
    ensures ' ' !in r
    ensures multiset(r)['.'] <= 2
  {
    var segments := Split(arg, '.');
    var head := Take(segments, 3);
    var joined := Join(head, ".");
    var r := Split(joined, ' ')[0];
    assert joined <= arg by {
      JoinSplit(arg, '.');
      JoinTakeIsPrefix(segments, 3, ".");
    }
    assert r <= joined by {
      SplitFirstIsPrefix(joined, ' ');
    }
    assert multiset(joined)['.'] == |head| - 1 by {
      assert forall i :: 0 <= i < |head| ==> head[i] == segments[i];
      JoinCount(head, '.');
    }
    assert multiset(joined) == multiset(r) + multiset(joined[|r|..]) by {
      assert joined == r + joined[|r|..];
    }
    r
  }

  /** `PluginMixin.object_name`: the last dot-separated segment of the
      argument, that is, the end of the argument after its last dot, or the
      whole argument when it has no dot. */
  function ObjectName(arg: string): (r: string)
    ensures '.' !in r
    ensures |r| <= |arg| && r == arg[|arg| - |r|..]
    ensures |r| == |arg| || arg[|arg| - |r| - 1] == '.'
  {
    var segments := Split(arg, '.');
    SplitLastIsSuffix(arg, '.');
    segments[|segments| - 1]
  }

  /** The argument of each child directive the objects directives emit:
      the plugin name, a dot, the key of the option or return value. */
  function ChildArgument(plugin: string, key: string): (r: string)
    ensures |r| == |plugin| + 1 + |key|
    ensures plugin <= r && r[|plugin|] == '.' && r[|plugin| + 1..] == key
  {
    plugin + "." + key
  }

  /** Joining the first `k` parts gives a prefix of joining all of them. */
  lemma {:induction false} JoinTakeIsPrefix(parts: seq<string>, k: nat, sep: string)
    ensures Join(Take(parts, k), sep) <= Join(parts, sep)
  {
    if |parts| > k && k > 0 {
      if k == 1 {
        assert Take(parts, k) == [parts[0]];
      } else {
        JoinTakeIsPrefix(parts[1..], k - 1, sep);
        assert Take(parts, k)[1..] == Take(parts[1..], k - 1);
      }
    }
  }

  /** Joining the first `k` parts gives all of the joined string when there
      are no more than `k` parts, and otherwise stops right before a separator. */
  lemma {:induction false} JoinTakeStops(parts: seq<string>, k: nat, c: char)
    requires k >= 1
    ensures var j := Join(Take(parts, k), [c]); var all := Join(parts, [c]);
      && (|parts| <= k ==> j == all)
      && (|parts| > k ==> |j| < |all| && all[|j|] == c)
  {
    if |parts| > k {
      var all := Join(parts, [c]);
      assert all == parts[0] + [c] + Join(parts[1..], [c]);
      if k == 1 {
        assert Take(parts, k) == [parts[0]];
      } else {
        var rest := Join(Take(parts[1..], k - 1), [c]);
        var tail := Join(parts[1..], [c]);
        assert |rest| < |tail| && tail[|rest|] == c by {
          JoinTakeStops(parts[1..], k - 1, c);
        }
        assert Join(Take(parts, k), [c]) == parts[0] + [c] + rest by {
          assert Take(parts, k) == [parts[0]] + Take(parts[1..], k - 1);
        }
        assert all[|parts[0]| + 1 + |rest|] == tail[|rest|];
      }
    }
  }

  /** The plugin name stops only where the source cuts: at the end of the
      argument, at a space, or at the dot that would start a fourth segment. */
  lemma PluginNameMaximal(arg: string)
    ensures var r := PluginName(arg);
      r == arg || (|r| < |arg| && arg[|r|] == ' ') || (|r| < |arg| && arg[|r|] == '.' && multiset(r)['.'] == 2)
  {
    var segments := Split(arg, '.');
    var head := Take(segments, 3);
    var joined := Join(head, ".");
    var r := Split(joined, ' ')[0];
    assert r == PluginName(arg);
    assert joined <= arg && (joined == arg || (|joined| < |arg| && arg[|joined|] == '.' && |head| == 3)) by {
      JoinSplit(arg, '.');
      JoinTakeIsPrefix(segments, 3, ".");
      JoinTakeStops(segments, 3, '.');
    }
    assert r == joined || (|r| < |joined| && joined[|r|] == ' ') by {
      SplitFirstStops(joined, ' ');
    }
    if r == joined && joined != arg {
      assert multiset(joined)['.'] == 2 by {
        assert forall i :: 0 <= i < |head| ==> head[i] == segments[i];
        JoinCount(head, '.');
      }
    }
  }

  /** An argument of at most three segments and no space is its own plugin name. */
  lemma PluginNameOfPlain(arg: string)
    requires ' ' !in arg
    requires |Split(arg, '.')| <= 3
    ensures PluginName(arg) == arg
  {
    assert Take(Split(arg, '.'), 3) == Split(arg, '.');
    JoinSplit(arg, '.');
    SplitNoSeparator(arg, ' ');
  }

  /** Taking the plugin name of a plugin name changes nothing. */
  lemma PluginNameIdempotent(arg: string)
    ensures PluginName(PluginName(arg)) == PluginName(arg)
  {
    var p := PluginName(arg);
    SplitCount(p, '.');
    PluginNameOfPlain(p);
  }

  /** The round trip of the objects directive: a child argument built from a
      three-segment plugin name without spaces and a key without dots gives
      back that plugin name and that key. */
  lemma ChildArgumentRoundTrip(plugin: string, key: string)
    requires |Split(plugin, '.')| == 3
    requires ' ' !in plugin
    requires '.' !in key
    ensures PluginName(ChildArgument(plugin, key)) == plugin
    ensures ObjectName(ChildArgument(plugin, key)) == key
  {
    SplitAround(plugin, key, '.');
    SplitNoSeparator(key, '.');
    assert ChildArgument(plugin, key) == plugin + ['.'] + key;
    var segments := Split(plugin, '.') + [key];
    assert Take(segments, 3) == Split(plugin, '.');
    JoinSplit(plugin, '.');
    SplitNoSeparator(plugin, ' ');
  }

  /** The object types of the `ansible` domain that have a directive. (The
      domain also declares a `role` type, which no directive registers.) */
  datatype ObjType = PluginObj | OptionObj | OptionsObj | ReturnObj | ReturnsObj | ExamplesObj
  {
    /** The name the type has in the domain's directive and role tables. */
    function Name(): (r: string)
      ensures ':' !in r && '.' !in r
    {
      match this
      case PluginObj => "plugin"
      case OptionObj => "option"
      case OptionsObj => "options"
      case ReturnObj => "return"
      case ReturnsObj => "returns"
      case ExamplesObj => "examples"
    }
  }

  /** The host framework names a directive of the `ansible` domain
      `ansible:<type>`. */
  function DirectiveName(t: ObjType): string
  {
    "ansible:" + t.Name()
  }

  /** The key `AnsibleObject.add_target_and_index` registers: the directive
      name with its colons turned into dots, a dot, the object name. */
  function TargetName(directive: string, name: string): (r: string)
    ensures |r| == |directive| + 1 + |name|
    ensures forall i :: 0 <= i < |directive| ==> r[i] == (if directive[i] == ':' then '.' else directive[i])
    ensures r[|directive|] == '.' && r[|directive| + 1..] == name
  {
    Replace(directive, ':', '.') + "." + name
  }

  /** The key `AnsibleDomain.resolve_xref` looks up for a reference of role
      `typ` to `target`: for a type without dots, its dotted segments are
      `ansible`, the type, then the target's own segments. */
  function XrefKey(typ: string, target: string): (r: string)
    ensures '.' !in typ ==> Split(r, '.') == ["ansible", typ] + Split(target, '.')
  {
    var r := "ansible." + typ + "." + target;
    assert '.' !in typ ==> Split(r, '.') == ["ansible", typ] + Split(target, '.') by {
      if '.' !in typ {
        assert r == "ansible" + ['.'] + typ + ['.'] + target;
        assert '.' !in "ansible";
        SplitTwoThenRest("ansible", typ, target, '.');
      }
    }
    r
  }

  /** Registration and resolution agree: the directive of type `t` named
      `name` registers exactly the key a reference of role `t` to `name`
      looks up. */
  lemma {:induction false} TargetIsXrefKey(t: ObjType, name: string)
    ensures TargetName(DirectiveName(t), name) == XrefKey(t.Name(), name)
  {
    var d := DirectiveName(t);
    var replaced := Replace(d, ':', '.');
    assert |replaced| == |"ansible." + t.Name()|;
    forall i | 0 <= i < |replaced|
      ensures replaced[i] == ("ansible." + t.Name())[i]
    {
      if i >= 8 {
        assert d[i] == t.Name()[i - 8];
      }
    }
  }

  /** Different names of the same type register different keys, so each
      directive has its own entry. */
  lemma TargetNameInjective(t: ObjType, a: string, b: string)
    requires a != b
    ensures TargetName(DirectiveName(t), a) != TargetName(DirectiveName(t), b)
  {
    TargetIsXrefKey(t, a);
    TargetIsXrefKey(t, b);
    var p := "ansible." + t.Name() + ".";
    assert XrefKey(t.Name(), a) == p + a && XrefKey(t.Name(), b) == p + b;
    assert (p + a)[|p|..] == a && (p + b)[|p|..] == b;
  }
}
