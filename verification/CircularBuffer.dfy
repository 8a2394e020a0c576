/** The fixed-size circular buffers behind the ready ring and the mailboxes. */
module CircularBuffer {

  /** The `count` elements that follow `head`, wrapping at the end of the storage. */
  function Window<T>(cells: seq<T>, head: nat, count: nat): (w: seq<T>)
    requires head < |cells| && count <= |cells|
    ensures |w| == count
  {
    seq(count, k requires 0 <= k < count => cells[(head + k) % |cells|])
  }

  lemma WrapIs(x: nat, n: nat)
    requires 0 < n && x < 2 * n
    ensures x % n == if x < n then x else x - n
  {
    if x >= n { assert x % n == (x - n) % n; }
  }

  lemma WindowAt<T>(cells: seq<T>, head: nat, count: nat, k: nat)
    requires head < |cells| && k < count <= |cells|
    ensures (head + k) % |cells| == if head + k < |cells| then head + k else head + k - |cells|
    ensures Window(cells, head, count)[k] == cells[if head + k < |cells| then head + k else head + k - |cells|]
  {
    WrapIs(head + k, |cells|);
  }

  lemma WindowPush<T>(cells: seq<T>, head: nat, count: nat, x: T)
    requires head < |cells| && count < |cells|
    ensures (head + count) % |cells| < |cells|
    ensures Window(cells[(head + count) % |cells| := x], head, count + 1) == Window(cells, head, count) + [x]
  {
    WrapIs(head + count, |cells|);
    var upd := cells[(head + count) % |cells| := x];
    forall k | 0 <= k < count + 1
      ensures Window(upd, head, count + 1)[k] == (Window(cells, head, count) + [x])[k]
    {
      WindowAt(upd, head, count + 1, k);
      if k < count { WindowAt(cells, head, count, k); }
    }
  }

  lemma WindowPop<T>(cells: seq<T>, head: nat, count: nat)
    requires head < |cells| && 0 < count <= |cells|
    ensures (head + 1) % |cells| < |cells|
    ensures Window(cells, head, count)[0] == cells[head]
    ensures Window(cells, (head + 1) % |cells|, count - 1) == Window(cells, head, count)[1..]
  {
    WrapIs(head + 1, |cells|);
    WindowAt(cells, head, count, 0);
    var next := (head + 1) % |cells|;
    forall k | 0 <= k < count - 1
      ensures Window(cells, next, count - 1)[k] == Window(cells, head, count)[1..][k]
    {
      WindowAt(cells, next, count - 1, k);
      WindowAt(cells, head, count, k + 1);
    }
  }

  lemma WindowReplaceLast<T>(cells: seq<T>, head: nat, count: nat, x: T)
    requires head < |cells| && 0 < count <= |cells|
    ensures (head + count - 1) % |cells| < |cells|
    ensures Window(cells, head, count)[count - 1] == cells[(head + count - 1) % |cells|]
    ensures Window(cells[(head + count - 1) % |cells| := x], head, count)
         == Window(cells, head, count)[..count - 1] + [x]
  {
    WrapIs(head + count - 1, |cells|);
    WindowAt(cells, head, count, count - 1);
    var upd := cells[(head + count - 1) % |cells| := x];
    forall k | 0 <= k < count
      ensures Window(upd, head, count)[k] == (Window(cells, head, count)[..count - 1] + [x])[k]
    {
      WindowAt(upd, head, count, k);
      WindowAt(cells, head, count, k);
    }
  }

  /** Storage that starts with the elements of s holds s as the window at position zero. */
  lemma WindowPrefix<T>(cells: seq<T>, s: seq<T>)
    requires 0 < |cells| && |s| <= |cells| && cells[..|s|] == s
    ensures Window(cells, 0, |s|) == s
  {
    forall k | 0 <= k < |s|
      ensures Window(cells, 0, |s|)[k] == s[k]
    {
      WindowAt(cells, 0, |s|, k);
      assert cells[..|s|][k] == cells[k];
    }
  }
}
