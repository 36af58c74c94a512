/** Python's `str.split`, `str.join` and `str.replace` on single characters,
    which the extension uses to take dotted names apart and to lay out its
    markup, together with the facts about them the rest of the model needs. */
module Strings {

  /** Python's `s.split(c)`: the pieces of `s` between occurrences of `c`.
      There is always one more piece than there are separators. */
  function Split(s: string, c: char): (r: seq<string>)
    ensures |r| >= 1
    ensures forall i :: 0 <= i < |r| ==> c !in r[i]
    decreases |s|
  {
    if |s| == 0 then [""]
    else
      var rest := Split(s[1..], c);
      if s[0] == c then [""] + rest
      else [[s[0]] + rest[0]] + rest[1..]
  }

  /** Python's `sep.join(parts)`. */
  function Join(parts: seq<string>, sep: string): string
  {
    if |parts| == 0 then ""
    else if |parts| == 1 then parts[0]
    else parts[0] + sep + Join(parts[1..], sep)
  }

  /** Python's `s.replace(a, b)` for single characters `a` and `b`. */
  function Replace(s: string, a: char, b: char): (r: string)
    ensures |r| == |s|
    ensures forall i :: 0 <= i < |s| ==> r[i] == (if s[i] == a then b else s[i])
  {
    if s == [] then []
    else [if s[0] == a then b else s[0]] + Replace(s[1..], a, b)
  }

  /** `pad` put in front of every string of `lines`. */
  function Prefixed(pad: string, lines: seq<string>): (r: seq<string>)
    ensures |r| == |lines|
    ensures forall i :: 0 <= i < |lines| ==> r[i] == pad + lines[i]
  {
    if lines == [] then [] else [pad + lines[0]] + Prefixed(pad, lines[1..])
  }

  /** There is one more piece than there are separators. */
  lemma {:induction false} SplitCount(s: string, c: char)
    ensures |Split(s, c)| == multiset(s)[c] + 1
  {
    if s != [] {
      SplitCount(s[1..], c);
      assert s == [s[0]] + s[1..];
    }
  }

  /** Splitting a string that has no separator gives the string back whole. */
  lemma {:induction false} SplitNoSeparator(s: string, c: char)
    requires c !in s
    ensures Split(s, c) == [s]
  {
    if s != [] {
      SplitNoSeparator(s[1..], c);
      assert [s[0]] + s[1..] == s;
    }
  }

  /** One step of `Split`: what a leading character does to the pieces. */
  lemma SplitCons(x: char, t: string, c: char)
    ensures Split([x] + t, c)
         == if x == c then [""] + Split(t, c) else [[x] + Split(t, c)[0]] + Split(t, c)[1..]
  {
    assert ([x] + t)[0] == x && ([x] + t)[1..] == t;
  }

  /** Putting a character in front of the first piece of `rt + rb` is
      putting it in front of the first piece of `rt`, when `rt` has one. */
  lemma ConsOntoFirst(x: char, rt: seq<string>, rb: seq<string>)
    requires |rt| >= 1
    ensures [[x] + (rt + rb)[0]] + (rt + rb)[1..] == ([[x] + rt[0]] + rt[1..]) + rb
  {
    assert (rt + rb)[1..] == rt[1..] + rb;
  }

  /** A separator splits the string exactly in two. */
  lemma {:induction false} SplitAround(a: string, b: string, c: char)
    ensures Split(a + [c] + b, c) == Split(a, c) + Split(b, c)
  {
    if a == [] {
      assert a + [c] + b == [c] + b;
      SplitCons(c, b, c);
    } else {
      var x, t := a[0], a[1..];
      var tail := t + [c] + b;
      var rt, rb := Split(t, c), Split(b, c);
      assert a + [c] + b == [x] + tail by {
        assert a == [x] + t;
      }
      assert Split(tail, c) == rt + rb by {
        SplitAround(t, b, c);
      }
      assert Split(a, c) == if x == c then [""] + rt else [[x] + rt[0]] + rt[1..] by {
        assert a == [x] + t;
        SplitCons(x, t, c);
      }
      SplitCons(x, tail, c);
      if x != c {
        ConsOntoFirst(x, rt, rb);
      } else {
        assert [""] + (rt + rb) == ([""] + rt) + rb;
      }
    }
  }

  /** A separator-free piece, a separator and a rest split into the piece
      followed by the pieces of the rest. */
  lemma SplitHead(a: string, t: string, c: char)
    requires c !in a
    ensures Split(a + [c] + t, c) == [a] + Split(t, c)
  {
    SplitAround(a, t, c);
    SplitNoSeparator(a, c);
  }

  /** Two separator-free pieces and a rest, joined by separators, split
      into the two pieces followed by the pieces of the rest. */
  lemma SplitTwoThenRest(a: string, b: string, t: string, c: char)
    requires c !in a && c !in b
    ensures Split(a + [c] + b + [c] + t, c) == [a, b] + Split(t, c)
  {
    assert a + [c] + b + [c] + t == a + [c] + (b + [c] + t);
    assert Split(b + [c] + t, c) == [b] + Split(t, c) by {
      SplitAround(b, t, c);
      SplitNoSeparator(b, c);
    }
    assert Split(a + [c] + (b + [c] + t), c) == [a] + ([b] + Split(t, c)) by {
      SplitAround(a, b + [c] + t, c);
      SplitNoSeparator(a, c);
    }
  }

  /** The first piece of a split is a prefix of the string. */
  lemma {:induction false} SplitFirstIsPrefix(s: string, c: char)
    ensures Split(s, c)[0] <= s
  {
    if s != [] && s[0] != c {
      SplitFirstIsPrefix(s[1..], c);
      assert s == [s[0]] + s[1..];
    }
  }

  /** The first piece of a split runs to the end of the string or stops
      right before a separator. */
  lemma {:induction false} SplitFirstStops(s: string, c: char)
    ensures var f := Split(s, c)[0]; f == s || (|f| < |s| && s[|f|] == c)
  {
    if s != [] && s[0] != c {
      SplitFirstStops(s[1..], c);
      assert s == [s[0]] + s[1..];
    }
  }

  /** The last piece of a split is the end of the string after its last
      separator, or the whole string when there is none. */
  lemma {:induction false} SplitLastIsSuffix(s: string, c: char)
    ensures var r := Split(s, c); var last := r[|r| - 1];
      && |last| <= |s|
      && last == s[|s| - |last|..]
      && (|last| == |s| || s[|s| - |last| - 1] == c)
  {
    if s != [] {
      var t := s[1..];
      var rest := Split(t, c);
      var last := rest[|rest| - 1];
      SplitLastIsSuffix(t, c);
      assert s == [s[0]] + t;
      assert s[|s| - |last|..] == t[|t| - |last|..];
      if s[0] != c && |rest| == 1 {
        assert last == t by {
          JoinSplit(t, c);
        }
        assert Split(s, c) == [[s[0]] + t];
      } else if s[0] != c {
        assert c in t by {
          if c !in t {
            SplitNoSeparator(t, c);
          }
        }
        assert last != t;
        assert Split(s, c)[|Split(s, c)| - 1] == last;
      } else {
        assert Split(s, c) == [""] + rest;
      }
    }
  }

  /** Joining the pieces of a split with the same separator rebuilds the string. */
  lemma {:induction false} JoinSplit(s: string, c: char)
    ensures Join(Split(s, c), [c]) == s
  {
    if s != [] {
      var rest := Split(s[1..], c);
      JoinSplit(s[1..], c);
      if s[0] == c {
        assert Split(s, c) == [""] + rest;
        assert ([""] + rest)[1..] == rest;
        assert s == [c] + s[1..];
      } else {
        var r := Split(s, c);
        assert r == [[s[0]] + rest[0]] + rest[1..];
        if |rest| == 1 {
          assert s == [s[0]] + rest[0];
        } else {
          assert r[1..] == rest[1..];
          assert Join(rest, [c]) == rest[0] + [c] + Join(rest[1..], [c]);
          assert s == [s[0]] + s[1..];
        }
      }
    }
  }

  /** Splitting a joined list gives the list back when no part holds the
      separator: the inverse of `JoinSplit`. */
  lemma {:induction false} SplitJoin(parts: seq<string>, c: char)
    requires |parts| >= 1
    requires forall i :: 0 <= i < |parts| ==> c !in parts[i]
    ensures Split(Join(parts, [c]), c) == parts
  {
    if |parts| == 1 {
      SplitNoSeparator(parts[0], c);
    } else {
      SplitJoin(parts[1..], c);
      SplitNoSeparator(parts[0], c);
      SplitAround(parts[0], Join(parts[1..], [c]), c);
      assert parts == [parts[0]] + parts[1..];
    }
  }

  /** A join of `n` parts free of the separator holds exactly `n - 1` separators. */
  lemma {:induction false} JoinCount(parts: seq<string>, c: char)
    requires |parts| >= 1
    requires forall i :: 0 <= i < |parts| ==> c !in parts[i]
    ensures multiset(Join(parts, [c]))[c] == |parts| - 1
  {
    SplitJoin(parts, c);
    SplitCount(Join(parts, [c]), c);
  }

  /** Joining with a separator followed by a pad is joining the padded parts
      with the bare separator: every part after the first gets the pad. */
  lemma {:induction false} JoinPadded(parts: seq<string>, c: char, pad: string)
    requires |parts| >= 1
    ensures Join(parts, [c] + pad) == Join([parts[0]] + Prefixed(pad, parts[1..]), [c])
  {
    if |parts| > 1 {
      JoinPadded(parts[1..], c, pad);
      var tail := Prefixed(pad, parts[1..]);
      var q := [parts[0]] + tail;
      assert q[1..] == tail;
      assert tail == [pad + parts[1]] + Prefixed(pad, parts[2..]);
      assert parts[1..][1..] == parts[2..];
      assert tail[1..] == Prefixed(pad, parts[2..]);
      assert [tail[0]] + tail[1..] == tail;
    }
  }
}
