// What several modules share: optional values, error codes, and counting.
module Common {
  datatype Option<+T> = None | Some(value: T)

  const EAGAIN: int := -11
  const EPIPE: int := -32
  const EIDRM: int := -43
  const ECANCELED: int := -125
  const ENOTRECOVERABLE: int := -131

  function Times<T(==)>(s: seq<T>, x: T): nat {
    if s == [] then 0 else Times(s[..|s| - 1], x) + if s[|s| - 1] == x then 1 else 0
  }

  lemma {:induction false} TimesAppend<T>(s: seq<T>, y: T, x: T)
    ensures Times(s + [y], x) == Times(s, x) + if y == x then 1 else 0
  {
    assert (s + [y])[..|s|] == s;
  }

  lemma {:induction false} TimesConcat<T>(a: seq<T>, b: seq<T>, x: T)
    ensures Times(a + b, x) == Times(a, x) + Times(b, x)
  {
    if b == [] {
      assert a + b == a;
    } else {
      assert (a + b)[..|a + b| - 1] == a + b[..|b| - 1];
      TimesConcat(a, b[..|b| - 1], x);
    }
  }

  lemma {:induction false} TimesRemove<T>(s: seq<T>, k: nat, x: T)
    requires k < |s|
    ensures Times(s[..k] + s[k + 1..], x) == Times(s, x) - if s[k] == x then 1 else 0
  {
    var n := |s| - 1;
    var rest := s[..k] + s[k + 1..];
    if k == n {
      assert rest == s[..n];
    } else {
      assert rest[..n - 1] == s[..n][..k] + s[..n][k + 1..];
      TimesRemove(s[..n], k, x);
    }
  }

  lemma {:induction false} TimesTail<T>(s: seq<T>, x: T)
    requires s != []
    ensures Times(s, x) == Times(s[1..], x) + if s[0] == x then 1 else 0
  {
    assert s[..0] + s[1..] == s[1..];
    TimesRemove(s, 0, x);
  }

  lemma {:induction false} TimesIn<T>(s: seq<T>, x: T)
    ensures Times(s, x) > 0 <==> x in s
  {
    if s != [] {
      var n := |s| - 1;
      assert s == s[..n] + [s[n]];
      TimesIn(s[..n], x);
    }
  }

  /** d * a + b, by repeated addition: orders pairs with b below d lexicographically. */
  function Pack(d: nat, a: nat, b: nat): nat {
    if a == 0 then b else d + Pack(d, a - 1, b)
  }

  lemma {:induction false} PackOrdered(d: nat, a: nat, b: nat, a': nat, b': nat)
    requires b' < d && (a' < a || (a' == a && b' < b))
    ensures Pack(d, a', b') < Pack(d, a, b)
    decreases a + a'
  {
    if a' > 0 {
      PackOrdered(d, a - 1, b, a' - 1, b');
    } else if a > 1 {
      PackOrdered(d, a - 1, b, a', b');
    }
  }
}
