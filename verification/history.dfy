/** The newest-first capped lists that the order page (last 10 orders) and
    the contact page (last 50 messages) keep in local storage: `unshift` the
    new entry, then keep only the first `cap` entries. */
module History {

  /** `list.unshift(x)` followed by `if (list.length > cap) list = list.slice(0, cap)`. */
  function Push<T>(h: seq<T>, x: T, cap: nat): (r: seq<T>)
    requires cap >= 1
    ensures |r| == if |h| + 1 <= cap then |h| + 1 else cap
    ensures r[0] == x
    ensures r[1..] == h[..|r| - 1]
  {
    var u := [x] + h;
    if |u| > cap then u[..cap] else u
  }

  /** A list that starts within the cap stays within it. */
  lemma PushKeepsCap<T>(h: seq<T>, x: T, cap: nat)
    requires cap >= 1 && |h| <= cap
    ensures |Push(h, x, cap)| <= cap
    ensures |h| < cap ==> Push(h, x, cap) == [x] + h
  {
  }

  /** After `k` pushes, the last `k` entries pushed are at the front, newest
      first, and the older list follows: entries are only ever dropped from
      the end. */
  lemma {:induction false} PushAllPrefix<T>(h: seq<T>, xs: seq<T>, cap: nat)
    requires cap >= 1 && |h| <= cap
    ensures PushAll(h, xs, cap) == (Reverse(xs) + h)[..Min(|xs| + |h|, cap)]
  {
    if xs != [] {
      var init := xs[..|xs| - 1];
      var x := xs[|xs| - 1];
      PushAllPrefix(h, init, cap);
      var prev := PushAll(h, init, cap);
      assert Reverse(xs) == [x] + Reverse(init);
      assert ([x] + Reverse(init) + h) == [x] + (Reverse(init) + h);
    } else {
      assert Reverse(xs) + h == h;
    }
  }

  function Min(a: int, b: int): int {
    if a <= b then a else b
  }

  /** Pushing every entry of `xs`, first to last. */
  function PushAll<T>(h: seq<T>, xs: seq<T>, cap: nat): seq<T>
    requires cap >= 1
  {
    if xs == [] then h else Push(PushAll(h, xs[..|xs| - 1], cap), xs[|xs| - 1], cap)
  }

  function Reverse<T>(s: seq<T>): (r: seq<T>)
    ensures |r| == |s|
    ensures forall i :: 0 <= i < |s| ==> r[i] == s[|s| - 1 - i]
  {
    if s == [] then [] else [s[|s| - 1]] + Reverse(s[..|s| - 1])
  }
}
