/** Failure-carrying values and the sequence combinators the form pipeline is
    built from. Python raises an exception at the first failing step; here a
    step returns `Err(fault)` and the combinators stop at the first failure. */
module Results {

  /** The Python exception classes the pipeline can raise. */
  datatype Fault =
    | IndexError      // list index out of range, pop from an empty list
    | KeyError        // missing dict key
    | TypeError       // subscripting or iterating a value that does not support it
    | AttributeError  // calling `.pop` on a value that is not a list or dict

  datatype Option<+T> = None | Some(value: T) {
    function GetOr(default: T): T {
      match this
      case Some(v) => v
      case None => default
    }
  }

  datatype Result<+T> = Ok(value: T) | Err(error: Fault) {
    predicate IsFailure() { Err? }

    function PropagateFailure<U>(): Result<U>
      requires Err?
    {
      Err(error)
    }

    function Extract(): T
      requires Ok?
    {
      value
    }
  }

  /** Applies `f` to every element from left to right and collects the results;
      the first element on which `f` fails decides the failure, as a Python
      loop or comprehension that raises does. */
  function MapAll<A, B>(f: A -> Result<B>, xs: seq<A>): (r: Result<seq<B>>)
    ensures r.Ok? <==> forall i :: 0 <= i < |xs| ==> f(xs[i]).Ok?
    ensures r.Ok? ==> |r.value| == |xs| && forall i :: 0 <= i < |xs| ==> f(xs[i]) == Ok(r.value[i])
    decreases |xs|
  {
    if xs == [] then Ok([])
    else
      var init := MapAll(f, xs[..|xs| - 1]);
      if init.Err? then
        Err(init.error)
      else
        var last := f(xs[|xs| - 1]);
        if last.Err? then Err(last.error) else Ok(init.value + [last.value])
  }

  /** The step a left-to-right loop takes: one more successful element. */
  lemma MapAllSnoc<A, B>(f: A -> Result<B>, xs: seq<A>, i: int)
    requires 0 <= i < |xs|
    requires MapAll(f, xs[..i]).Ok? && f(xs[i]).Ok?
    ensures MapAll(f, xs[..i + 1]) == Ok(MapAll(f, xs[..i]).value + [f(xs[i]).value])
  {
    assert xs[..i + 1][..i] == xs[..i];
  }

  /** The exit a left-to-right loop takes: the whole map fails with the fault of
      the first failing element. */
  lemma {:induction false} MapAllStops<A, B>(f: A -> Result<B>, xs: seq<A>, i: int)
    requires 0 <= i < |xs|
    requires MapAll(f, xs[..i]).Ok? && f(xs[i]).Err?
    ensures MapAll(f, xs) == Err(f(xs[i]).error)
    decreases |xs|
  {
    var n := |xs| - 1;
    if n > i {
      assert xs[..n][..i] == xs[..i];
      MapAllStops(f, xs[..n], i);
    }
  }

  /** Both parts succeed, and the values are appended; otherwise the first
      failure, as running one loop after the other does. */
  function AppendResults<T>(a: Result<seq<T>>, b: Result<seq<T>>): Result<seq<T>> {
    if a.Err? then Err(a.error)
    else if b.Err? then Err(b.error)
    else Ok(a.value + b.value)
  }

  /** Mapping over two halves one after the other is mapping over the whole. */
  lemma {:induction false} MapAllAppend<A, B>(f: A -> Result<B>, xs: seq<A>, ys: seq<A>)
    ensures MapAll(f, xs + ys) == AppendResults(MapAll(f, xs), MapAll(f, ys))
    decreases |ys|
  {
    if ys == [] {
      assert xs + ys == xs;
      if MapAll(f, xs).Ok? {
        assert MapAll(f, xs).value + [] == MapAll(f, xs).value;
      }
    } else {
      var n := |ys| - 1;
      var zs := xs + ys;
      assert zs[..|zs| - 1] == xs + ys[..n];
      assert zs[|zs| - 1] == ys[n];
      MapAllAppend(f, xs, ys[..n]);
      var a, b, last := MapAll(f, xs), MapAll(f, ys[..n]), f(ys[n]);
      var m := MapAll(f, xs + ys[..n]);
      assert MapAll(f, zs) == if m.Err? then Err(m.error) else if last.Err? then Err(last.error) else Ok(m.value + [last.value]);
      assert MapAll(f, ys) == if b.Err? then Err(b.error) else if last.Err? then Err(last.error) else Ok(b.value + [last.value]);
      if a.Ok? && b.Ok? && last.Ok? {
        assert a.value + (b.value + [last.value]) == (a.value + b.value) + [last.value];
      }
    }
  }

  lemma MapAllSingle<A, B>(f: A -> Result<B>, x: A)
    ensures MapAll(f, [x]) == if f(x).Ok? then Ok([f(x).value]) else Err(f(x).error)
  {
    assert [x][..0] == [];
    assert MapAll(f, []) == Ok([]);
    if f(x).Ok? {
      assert [] + [f(x).value] == [f(x).value];
    }
  }

  /** Two maps that agree element by element agree, failures included. */
  lemma {:induction false} MapAllPointwise<A, A', B>(f: A -> Result<B>, xs: seq<A>, g: A' -> Result<B>, ys: seq<A'>)
    requires |xs| == |ys|
    requires forall i :: 0 <= i < |xs| ==> f(xs[i]) == g(ys[i])
    ensures MapAll(f, xs) == MapAll(g, ys)
    decreases |xs|
  {
    if xs != [] {
      var n := |xs| - 1;
      MapAllPointwise(f, xs[..n], g, ys[..n]);
    }
  }

  /** `Concat` of a successful value. */
  function ConcatResult<T>(r: Result<seq<seq<T>>>): Result<seq<T>> {
    if r.Err? then Err(r.error) else Ok(Concat(r.value))
  }

  lemma ConcatResultAppend<T>(a: Result<seq<seq<T>>>, b: Result<seq<seq<T>>>)
    ensures ConcatResult(AppendResults(a, b)) == AppendResults(ConcatResult(a), ConcatResult(b))
  {
    if a.Ok? && b.Ok? {
      ConcatAppend(a.value, b.value);
    }
  }

  /** Concatenation of a sequence of sequences, left to right. */
  function Concat<T>(xss: seq<seq<T>>): (r: seq<T>)
    decreases |xss|
  {
    if xss == [] then [] else Concat(xss[..|xss| - 1]) + xss[|xss| - 1]
  }

  lemma {:induction false} ConcatAppend<T>(xss: seq<seq<T>>, yss: seq<seq<T>>)
    ensures Concat(xss + yss) == Concat(xss) + Concat(yss)
    decreases |yss|
  {
    if yss == [] {
      assert xss + yss == xss;
    } else {
      var n := |yss| - 1;
      assert (xss + yss)[..|xss + yss| - 1] == xss + yss[..n];
      ConcatAppend(xss, yss[..n]);
    }
  }

  lemma ConcatSingle<T>(xs: seq<T>)
    ensures Concat([xs]) == xs
  {
    assert [xs][..0] == [];
  }

  lemma ConcatCons<T>(xs: seq<T>, yss: seq<seq<T>>)
    ensures Concat([xs] + yss) == xs + Concat(yss)
  {
    ConcatAppend([xs], yss);
    assert [xs][..0] == [];
  }

  /** The length of a concatenation is the sum of the lengths. */
  function SumLengths<T>(xss: seq<seq<T>>): nat
    decreases |xss|
  {
    if xss == [] then 0 else |xss[0]| + SumLengths(xss[1..])
  }

  lemma {:induction false} ConcatLength<T>(xss: seq<seq<T>>)
    ensures |Concat(xss)| == SumLengths(xss)
    decreases |xss|
  {
    if xss != [] {
      assert xss == [xss[0]] + xss[1..];
      ConcatCons(xss[0], xss[1..]);
      ConcatLength(xss[1..]);
    }
  }

  /** Python's `sep.join(parts)`. */
  function Join(sep: string, parts: seq<string>): (r: string)
    ensures parts == [] ==> r == ""
    ensures parts != [] ==> parts[0] <= r
    decreases |parts|
  {
    if parts == [] then ""
    else if |parts| == 1 then parts[0]
    else parts[0] + sep + Join(sep, parts[1..])
  }

  /** A join is as long as its parts together, plus one separator between
      each two neighbouring parts. */
  lemma {:induction false} JoinLength(sep: string, parts: seq<string>)
    requires parts != []
    ensures |Join(sep, parts)| == SumLengths(parts) + (|parts| - 1) * |sep|
    decreases |parts|
  {
    if |parts| > 1 {
      JoinLength(sep, parts[1..]);
    }
  }

  /** Joining two non-empty runs of parts puts one separator between the
      two joins. */
  lemma {:induction false} JoinAppend(sep: string, a: seq<string>, b: seq<string>)
    requires a != [] && b != []
    ensures Join(sep, a + b) == Join(sep, a) + sep + Join(sep, b)
    decreases |a|
  {
    if |a| == 1 {
      assert (a + b)[1..] == b;
    } else {
      assert (a + b)[1..] == a[1..] + b;
      JoinAppend(sep, a[1..], b);
    }
  }
}
