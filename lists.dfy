/** Order-preserving list combinators: `map` and `flat`. */
module Lists {

  /** `xs.map(f)`. */
  function MapEach<A, B>(f: A -> B, xs: seq<A>): (ys: seq<B>)
    ensures |ys| == |xs|
    ensures forall i :: 0 <= i < |xs| ==> ys[i] == f(xs[i])
  {
    seq(|xs|, i requires 0 <= i < |xs| => f(xs[i]))
  }

  /** Mapping a concatenation maps each part in place. */
  lemma MapEachAppend<A, B>(f: A -> B, a: seq<A>, b: seq<A>)
    ensures MapEach(f, a + b) == MapEach(f, a) + MapEach(f, b)
  {
    var l, r := MapEach(f, a + b), MapEach(f, a) + MapEach(f, b);
    forall i | 0 <= i < |a + b| ensures l[i] == r[i] {
      if i < |a| { assert (a + b)[i] == a[i]; } else { assert (a + b)[i] == b[i - |a|]; }
    }
  }

  /** Total number of elements over all the lists. */
  function TotalLength<T>(xss: seq<seq<T>>): nat
  {
    if xss == [] then 0 else |xss[0]| + TotalLength(xss[1..])
  }

  /** `xss.flat()` for a list of lists. */
  function Flat<T>(xss: seq<seq<T>>): (r: seq<T>)
    ensures |r| == TotalLength(xss)
    decreases |xss|
  {
    if xss == [] then [] else xss[0] + Flat(xss[1..])
  }

  lemma {:induction false} FlatAppend<T>(a: seq<seq<T>>, b: seq<seq<T>>)
    ensures Flat(a + b) == Flat(a) + Flat(b)
    decreases |a|
  {
    if a == [] {
      assert a + b == b;
    } else {
      assert (a + b)[1..] == a[1..] + b;
      FlatAppend(a[1..], b);
    }
  }

  /** An element of the flattened list comes from one of the lists, and every element of every list is in it. */
  lemma {:induction false} FlatMembership<T>(xss: seq<seq<T>>, x: T)
    ensures x in Flat(xss) <==> exists i :: 0 <= i < |xss| && x in xss[i]
    decreases |xss|
  {
    if xss != [] {
      FlatMembership(xss[1..], x);
      if x in Flat(xss[1..]) {
        var i :| 0 <= i < |xss[1..]| && x in xss[1..][i];
        assert x in xss[i + 1];
      }
      if exists i :: 0 <= i < |xss| && x in xss[i] {
        var i :| 0 <= i < |xss| && x in xss[i];
        if i > 0 { assert x in xss[1..][i - 1]; }
      }
    }
  }

}
