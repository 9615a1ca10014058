/** The rolling chart series of the dashboard: `[...prev.slice(-19), sample]`
    keeps the newest twenty samples, oldest first. */
module History {

  /** How many samples a series keeps. */
  const Capacity := 20

  /** One chart point: when it was received and what was read. */
  datatype Sample<T> = Sample(time: int, value: T)

  /** The series after one more sample: the last nineteen old samples, then `x`. */
  function Append<T>(h: seq<T>, x: T): (r: seq<T>)
    ensures |r| == if |h| < Capacity then |h| + 1 else Capacity
    ensures r[..|r| - 1] == h[|h| + 1 - |r|..] && r[|r| - 1] == x
  {
    var kept := if |h| < Capacity - 1 then |h| else Capacity - 1;
    h[|h| - kept..] + [x]
  }

  /** The series after the samples `xs` were appended one at a time, in order. */
  function AppendAll<T>(h: seq<T>, xs: seq<T>): seq<T>
    decreases |xs|
  {
    if xs == [] then h else AppendAll(Append(h, xs[0]), xs[1..])
  }

  /** The newest `n` elements of `s` (all of them when `s` is shorter). */
  function Newest<T>(s: seq<T>, n: nat): (r: seq<T>)
    ensures |r| == if |s| < n then |s| else n
    ensures r == s[|s| - |r|..]
  {
    if |s| < n then s else s[|s| - n..]
  }

  /** A full series drops exactly its oldest sample and keeps the order of the rest. */
  lemma {:induction false} AppendToFull<T>(h: seq<T>, x: T)
    requires |h| == Capacity
    ensures Append(h, x) == h[1..] + [x]
  {
  }

  /** Dropping old elements that lie outside the newest `n` does not change them. */
  lemma {:induction false} NewestOfSuffix<T>(s: seq<T>, d: nat, n: nat)
    requires d <= |s| && (d == 0 || |s| - d >= n)
    ensures Newest(s[d..], n) == Newest(s, n)
  {
    if d > 0 {
      assert s[d..][|s| - d - n..] == s[|s| - n..];
    }
  }

  /** One append keeps a suffix of the old series extended by the new sample. */
  lemma {:induction false} AppendDropsOldest<T>(h: seq<T>, x: T)
    ensures Append(h, x) == (h + [x])[|h| + 1 - |Append(h, x)|..]
  {
    var r := Append(h, x);
    assert r == r[..|r| - 1] + [r[|r| - 1]];
  }

  /** Dropping from the front before or after concatenating gives the same sequence. */
  lemma {:induction false} SuffixThenConcat<T>(a: seq<T>, b: seq<T>, d: nat)
    requires d <= |a|
    ensures a[d..] + b == (a + b)[d..]
  {
  }

  /** Whatever a series held (at most twenty samples), after any run of appends it
      holds the newest twenty of everything seen, in arrival order. */
  lemma {:induction false} AppendAllKeepsNewest<T>(h: seq<T>, xs: seq<T>)
    requires |h| <= Capacity
    ensures AppendAll(h, xs) == Newest(h + xs, Capacity)
    decreases |xs|
  {
    if xs == [] {
      assert h + xs == h;
    } else {
      var x, rest := xs[0], xs[1..];
      var h' := Append(h, x);
      assert AppendAll(h, xs) == AppendAll(h', rest);
      AppendAllKeepsNewest(h', rest);
      var drop := |h| + 1 - |h'|;
      AppendDropsOldest(h, x);
      assert h + xs == (h + [x]) + rest by {
        assert xs == [x] + rest;
      }
      SuffixThenConcat(h + [x], rest, drop);
      NewestOfSuffix(h + xs, drop, Capacity);
    }
  }

  /** Once at least twenty samples have been appended, the series holds exactly
      the last twenty of them, in arrival order, whatever it held before. */
  lemma {:induction false} LastTwentyAppended<T>(h: seq<T>, xs: seq<T>)
    requires |h| <= Capacity && |xs| >= Capacity
    ensures AppendAll(h, xs) == xs[|xs| - Capacity..]
  {
    AppendAllKeepsNewest(h, xs);
    NewestOfConcat(h, xs, Capacity);
  }

  /** The newest `n` of `a + b` come from `b` alone when `b` has at least `n`. */
  lemma {:induction false} NewestOfConcat<T>(a: seq<T>, b: seq<T>, n: nat)
    requires n <= |b|
    ensures Newest(a + b, n) == b[|b| - n..]
  {
    var s := a + b;
    assert s[|s| - n..] == s[|a|..][|b| - n..];
    assert s[|a|..] == b;
  }
}
