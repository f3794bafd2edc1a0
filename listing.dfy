/**
 * The loop shape shared by the marker builders: walk a list in order, and for
 * each element append what a rule yields for it, or nothing.
 */
module Listing {
  import opened Wrappers

  /** What one element contributes: its value, or nothing. */
  function Opt<B>(o: Option<B>): seq<B> {
    match o
    case Some(b) => [b]
    case None => []
  }

  /** The values `f` yields for the elements of `s`, in the order of `s`. */
  function FilterMap<A, B>(f: A -> Option<B>, s: seq<A>): (r: seq<B>)
    ensures |r| <= |s|
    decreases |s|
  {
    if s == [] then [] else FilterMap(f, s[..|s| - 1]) + Opt(f(s[|s| - 1]))
  }

  /** One more element at the end appends its contribution, and nothing else changes. */
  lemma FilterMapSnoc<A, B>(f: A -> Option<B>, s: seq<A>, a: A)
    ensures FilterMap(f, s + [a]) == FilterMap(f, s) + Opt(f(a))
  {
    assert (s + [a])[..|s|] == s;
  }

  /** The positions of the elements that yield a value, in increasing order. */
  function Sources<A, B>(f: A -> Option<B>, s: seq<A>): seq<nat>
    decreases |s|
  {
    if s == [] then []
    else Sources(f, s[..|s| - 1]) + (if f(s[|s| - 1]).Some? then [|s| - 1] else [])
  }

  /**
   * The result lists, in order and each once, exactly the values of the
   * elements that yield one: its j-th entry is the value of the element at
   * position `Sources(f, s)[j]`, those positions increase, and a position is
   * among them exactly when its element yields a value.
   */
  lemma {:induction false} FilterMapSources<A, B>(f: A -> Option<B>, s: seq<A>)
    ensures var r, idx := FilterMap(f, s), Sources(f, s);
      && |idx| == |r|
      && (forall j :: 0 <= j < |idx| ==> idx[j] < |s| && f(s[idx[j]]) == Some(r[j]))
      && (forall j, k :: 0 <= j < k < |idx| ==> idx[j] < idx[k])
      && (forall k :: 0 <= k < |s| ==> (k in idx <==> f(s[k]).Some?))
    decreases |s|
  {
    if s != [] {
      var t := s[..|s| - 1];
      FilterMapSources(f, t);
      var r0, idx0 := FilterMap(f, t), Sources(f, t);
      var r, idx := FilterMap(f, s), Sources(f, s);
      assert forall j :: 0 <= j < |t| ==> s[j] == t[j];
      if f(s[|s| - 1]).Some? {
        assert r == r0 + [f(s[|s| - 1]).value];
        assert idx == idx0 + [|s| - 1];
      } else {
        assert r == r0 && idx == idx0;
      }
    }
  }

  /** A value is in the result exactly when some element yields it. */
  lemma FilterMapMember<A, B>(f: A -> Option<B>, s: seq<A>, b: B)
    ensures b in FilterMap(f, s) <==> exists k :: 0 <= k < |s| && f(s[k]) == Some(b)
  {
    FilterMapSources(f, s);
    var r, idx := FilterMap(f, s), Sources(f, s);
    if b in r {
      var j :| 0 <= j < |r| && r[j] == b;
      assert f(s[idx[j]]) == Some(b);
    }
    if k :| 0 <= k < |s| && f(s[k]) == Some(b) {
      assert k in idx;
      var j :| 0 <= j < |idx| && idx[j] == k;
      assert r[j] == b;
    }
  }

  /** When no element yields a value the result is empty. */
  lemma {:induction false} FilterMapNone<A, B>(f: A -> Option<B>, s: seq<A>)
    requires forall k :: 0 <= k < |s| ==> f(s[k]).None?
    ensures FilterMap(f, s) == []
    decreases |s|
  {
    if s != [] {
      FilterMapNone(f, s[..|s| - 1]);
    }
  }
}
