/** Value types and sequence facts shared by the component models. */
module Common {

  datatype Option<+T> = None | Some(value: T)

  /** The status codes of cc_result_t that the modelled operations can return. */
  datatype Status =
    | Ok
    | InvalidArgument
    | InvalidState
    | NotFound
    | Cancelled
    | LimitExceeded
    | QueueFull
    | Timeout
    | Storage
    | Model
    | Platform
    | Io
    | Json

  /** f lists, in increasing order, the positions of b at which the elements of a are found. */
  ghost predicate Embeds<T>(f: seq<nat>, a: seq<T>, b: seq<T>) {
    && |f| == |a|
    && (forall k :: 0 <= k < |f| ==> f[k] < |b| && a[k] == b[f[k]])
    && (forall k, l :: 0 <= k < l < |f| ==> f[k] < f[l])
  }

  /** a can be obtained from b by deleting elements. */
  ghost predicate Subsequence<T>(a: seq<T>, b: seq<T>) {
    exists f: seq<nat> :: Embeds(f, a, b)
  }

  lemma SubsequenceRefl<T>(a: seq<T>)
    ensures Subsequence(a, a)
  {
    var f: seq<nat> := seq(|a|, i requires 0 <= i => i);
    assert Embeds(f, a, a);
  }

  /** Appending the same element to both sides, or only to the longer side, keeps the relation. */
  lemma SubsequenceAppend<T>(a: seq<T>, b: seq<T>, x: T)
    requires Subsequence(a, b)
    ensures Subsequence(a + [x], b + [x])
    ensures Subsequence(a, b + [x])
  {
    var f: seq<nat> :| Embeds(f, a, b);
    assert Embeds(f + [|b|], a + [x], b + [x]);
    assert Embeds(f, a, b + [x]);
  }

  lemma SubsequenceDelete<T>(a: seq<T>, b: seq<T>, k: nat)
    requires Subsequence(a, b) && k < |a|
    ensures Subsequence(a[..k] + a[k + 1..], b)
  {
    var f: seq<nat> :| Embeds(f, a, b);
    assert Embeds(f[..k] + f[k + 1..], a[..k] + a[k + 1..], b);
  }

  lemma SubsequenceTrans<T>(a: seq<T>, b: seq<T>, c: seq<T>)
    requires Subsequence(a, b) && Subsequence(b, c)
    ensures Subsequence(a, c)
  {
    var f: seq<nat> :| Embeds(f, a, b);
    var g: seq<nat> :| Embeds(g, b, c);
    var h: seq<nat> := seq(|a|, i requires 0 <= i < |a| => g[f[i]]);
    assert Embeds(h, a, c);
  }

  lemma SubsequenceConcat<T>(a: seq<T>, b: seq<T>, c: seq<T>, d: seq<T>)
    requires Subsequence(a, b) && Subsequence(c, d)
    ensures Subsequence(a + c, b + d)
  {
    var f: seq<nat> :| Embeds(f, a, b);
    var g: seq<nat> :| Embeds(g, c, d);
    var h: seq<nat> := f + seq(|g|, i requires 0 <= i < |g| => g[i] + |b|);
    assert Embeds(h, a + c, b + d);
  }

  /** No element occurs twice. */
  predicate Distinct<T(==)>(s: seq<T>) {
    forall i, j :: 0 <= i < j < |s| ==> s[i] != s[j]
  }

  /** Removing one position from a duplicate-free sequence. */
  lemma DistinctDelete<T>(s: seq<T>, k: nat)
    requires Distinct(s) && k < |s|
    ensures Distinct(s[..k] + s[k + 1..])
    ensures forall x :: x in s[..k] + s[k + 1..] <==> x in s && x != s[k]
  {
    var t := s[..k] + s[k + 1..];
    forall x | x in s && x != s[k]
      ensures x in t
    {
      var j :| 0 <= j < |s| && s[j] == x;
      assert t[if j < k then j else j - 1] == x;
    }
  }

  /** Pigeonhole: a duplicate-free sequence of numbers below n has at most n elements. */
  lemma {:induction false} DistinctBounded(s: seq<nat>, n: nat)
    requires Distinct(s) && forall k :: 0 <= k < |s| ==> s[k] < n
    ensures |s| <= n
  {
    assert |s| > 0 ==> 0 <= s[0] < n;
    if n > 0 {
      if n - 1 in s {
        var k :| 0 <= k < |s| && s[k] == n - 1;
        var t := s[..k] + s[k + 1..];
        DistinctDelete(s, k);
        forall j | 0 <= j < |t|
          ensures t[j] < n - 1
        {
          assert t[j] in t && t[j] in s;
        }
        DistinctBounded(t, n - 1);
      } else {
        forall j | 0 <= j < |s|
          ensures s[j] < n - 1
        {
          assert s[j] in s;
        }
        DistinctBounded(s, n - 1);
      }
    }
  }

  /** Pigeonhole for sets. */
  lemma {:induction false} SetBounded(s: set<nat>, n: nat)
    requires forall k :: k in s ==> k < n
    ensures |s| <= n
  {
    if n > 0 {
      SetBounded(s - {n - 1}, n - 1);
    } else {
      assert s == {};
    }
  }
}
