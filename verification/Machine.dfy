/** Unsigned 64- and 32-bit arithmetic as Go and C perform it: results wrap. */
module Machine {

  const TWO64: nat := 0x1_0000_0000_0000_0000
  const TWO32: nat := 0x1_0000_0000

  function Wrap64(x: nat): nat {
    if x < TWO64 then x else x % TWO64
  }

  function Wrap32(x: nat): nat {
    if x < TWO32 then x else x % TWO32
  }

  /** `s[-n:]` in TypeScript, `s[len(s)-n:]` in Go when the slice is long enough. */
  function Last<T>(n: nat, s: seq<T>): seq<T> {
    if |s| <= n then s else s[|s| - n..]
  }

  /** `s[:n]`, or all of s if it is shorter, and what comes after. */
  function First<T>(n: nat, s: seq<T>): seq<T> { if |s| <= n then s else s[..n] }

  function Rest<T>(n: nat, s: seq<T>): seq<T> { if |s| <= n then [] else s[n..] }

  /** Trimming the left part first does not change what survives a trim. */
  lemma {:induction false} LastOfLast<T>(n: nat, a: seq<T>, b: seq<T>)
    ensures Last(n, Last(n, a) + b) == Last(n, a + b)
  {}
}
