/** Optional values and the faults the extension raises.

    The extension catches nothing: a missing key or a value of the wrong
    kind aborts the documentation build with Python's own exception. The
    model returns those exceptions as values instead. */
module Common {

  datatype Option<+T> = None | Some(value: T)

  /** The exceptions the rendering code can raise on malformed metadata. */
  datatype Fault =
    | MissingKey(key: string)  // KeyError from `dict.pop` or `data[...]` on an absent key
    | NotAMapping              // a dict method on a non-dict: AttributeError, or TypeError from `list.pop('description')`
    | NotText                  // TypeError/AttributeError: a string operation on a non-string

  datatype Result<+T> = Ok(value: T) | Err(fault: Fault)
  {
    predicate IsFailure() { Err? }

    function PropagateFailure<U>(): Result<U>
      requires Err?
    {
      Err(fault)
    }

    function Extract(): T
      requires Ok?
    {
      value
    }
  }

  /** Keeps the elements of `s` that satisfy `keep`, in their original order. */
  function Filter<T(!new)>(s: seq<T>, keep: T -> bool): (r: seq<T>)
    ensures |r| <= |s|
    ensures forall x :: x in r <==> x in s && keep(x)
    ensures forall i :: 0 <= i < |r| ==> keep(r[i])
  {
    if s == [] then []
    else if keep(s[0]) then [s[0]] + Filter(s[1..], keep)
    else Filter(s[1..], keep)
  }

  /** Filtering distributes over concatenation: what is kept keeps its order. */
  lemma {:induction false} FilterAppend<T(!new)>(a: seq<T>, b: seq<T>, keep: T -> bool)
    ensures Filter(a + b, keep) == Filter(a, keep) + Filter(b, keep)
  {
    if a == [] {
      assert a + b == b;
    } else {
      assert (a + b)[1..] == a[1..] + b;
      FilterAppend(a[1..], b, keep);
    }
  }
}
