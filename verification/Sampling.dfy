/** Seed sampling: the partial Fisher-Yates draw, with the random generator as a sequence of choices. */
module Sampling {
  import opened Prelude

  /** Choice `i` is drawn from `0..n - i`. */
  ghost predicate Choices(n: nat, cs: seq<nat>) {
    |cs| <= n && forall i :: 0 <= i < |cs| ==> cs[i] < n - i
  }

  /** `out` picks distinct elements of `pool`. */
  ghost predicate Arrangement(pool: seq<nat>, out: seq<nat>) {
    Distinct(out) && forall x :: x in out ==> x in pool
  }

  function Swapped(s: seq<nat>, i: nat, j: nat): seq<nat>
    requires i < |s| && j < |s|
  {
    s[i := s[j]][j := s[i]]
  }

  /** What is left of the pool once its element `c` was swapped to the front and taken. */
  function Rest(pool: seq<nat>, c: nat): seq<nat>
    requires c < |pool|
  {
    Swapped(pool, 0, c)[1..]
  }

  /** The elements drawn, front to back. */
  ghost function Draw(pool: seq<nat>, cs: seq<nat>): seq<nat>
    requires Choices(|pool|, cs)
    decreases |cs|
  {
    if cs == [] then [] else [pool[cs[0]]] + Draw(Rest(pool, cs[0]), cs[1..])
  }

  ghost function IndexOf(s: seq<nat>, x: nat): (i: nat)
    requires x in s
    ensures i < |s| && s[i] == x
  {
    var i :| 0 <= i < |s| && s[i] == x; i
  }

  /** The choices that draw `out`. */
  ghost function Recover(pool: seq<nat>, out: seq<nat>): seq<nat>
    requires Distinct(pool) && Arrangement(pool, out)
    decreases |out|
  {
    if out == [] then []
    else
      var c := IndexOf(pool, out[0]);
      RestPool(pool, c);
      RestArrangement(pool, c, out);
      [c] + Recover(Rest(pool, c), out[1..])
  }

  /** Taking one element keeps the others, each once. */
  lemma RestPool(pool: seq<nat>, c: nat)
    requires Distinct(pool) && c < |pool|
    ensures Distinct(Rest(pool, c))
    ensures forall x :: x in Rest(pool, c) <==> x in pool && x != pool[c]
  {
    var r := Rest(pool, c);
    assert forall i :: 0 <= i < |r| ==> r[i] == if i + 1 == c then pool[0] else pool[i + 1];
    forall x | x in pool && x != pool[c]
      ensures x in r
    {
      var i := IndexOf(pool, x);
      assert r[if i == 0 then c - 1 else i - 1] == x;
    }
  }

  lemma RestArrangement(pool: seq<nat>, c: nat, out: seq<nat>)
    requires Distinct(pool) && c < |pool| && Arrangement(pool, out) && out != [] && out[0] == pool[c]
    ensures Arrangement(Rest(pool, c), out[1..])
  {
    RestPool(pool, c);
    assert forall x :: x in out[1..] ==> x in out && x != out[0];
  }

  lemma RecoverCons(pool: seq<nat>, c: nat, tail: seq<nat>)
    requires Distinct(pool) && c < |pool| && Distinct(Rest(pool, c)) && Arrangement(Rest(pool, c), tail)
    ensures Arrangement(pool, [pool[c]] + tail)
    ensures Recover(pool, [pool[c]] + tail) == [c] + Recover(Rest(pool, c), tail)
  {
    RestPool(pool, c);
    var out := [pool[c]] + tail;
    assert forall i :: 0 < i < |out| ==> out[i] == tail[i - 1] && out[i] in tail;
    assert out[1..] == tail;
  }

  /** Every choice sequence draws distinct pool elements, and the draw determines the choices. */
  lemma {:induction false} DrawThenRecover(pool: seq<nat>, cs: seq<nat>)
    requires Distinct(pool) && Choices(|pool|, cs)
    ensures |Draw(pool, cs)| == |cs| && Arrangement(pool, Draw(pool, cs))
    ensures Recover(pool, Draw(pool, cs)) == cs
    decreases |cs|
  {
    if cs != [] {
      var c, rest := cs[0], Rest(pool, cs[0]);
      var tail := Draw(rest, cs[1..]);
      RestPool(pool, c);
      DrawThenRecover(rest, cs[1..]);
      RecoverCons(pool, c, tail);
    }
  }

  /** Every arrangement is drawn by some choice sequence: with the lemma above, a bijection. */
  lemma {:induction false} RecoverThenDraw(pool: seq<nat>, out: seq<nat>)
    requires Distinct(pool) && Arrangement(pool, out)
    ensures |Recover(pool, out)| == |out| && Choices(|pool|, Recover(pool, out))
    ensures Draw(pool, Recover(pool, out)) == out
    decreases |out|
  {
    if out != [] {
      var c := IndexOf(pool, out[0]);
      var rest := Rest(pool, c);
      RestPool(pool, c);
      RestArrangement(pool, c, out);
      RecoverThenDraw(rest, out[1..]);
      var cs := Recover(rest, out[1..]);
      assert Recover(pool, out) == [c] + cs;
      assert ([c] + cs)[1..] == cs;
      assert forall i :: 0 < i < |cs| + 1 ==> ([c] + cs)[i] == cs[i - 1];
    }
  }

  function Upto(n: nat): seq<nat> { seq(n, i => i) }

  lemma {:induction false} DrawSnoc(pool: seq<nat>, cs: seq<nat>, c: nat)
    requires Choices(|pool|, cs) && c < |pool| - |cs|
    requires Choices(|pool|, cs + [c])
    ensures Draw(pool, cs + [c]) == Draw(pool, cs) + [Left(pool, cs)[c]]
    ensures Left(pool, cs + [c]) == Rest(Left(pool, cs), c)
    decreases |cs|
  {
    if cs != [] {
      assert (cs + [c])[1..] == cs[1..] + [c];
      assert forall i :: 0 <= i < |cs| ==> (cs + [c])[1..][i] == (cs + [c])[i + 1];
      DrawSnoc(Rest(pool, cs[0]), cs[1..], c);
    } else {
      assert [c][1..] == [];
    }
  }

  /** The undrawn part of the pool. */
  ghost function Left(pool: seq<nat>, cs: seq<nat>): (rest: seq<nat>)
    requires Choices(|pool|, cs)
    ensures |rest| == |pool| - |cs|
    decreases |cs|
  {
    if cs == [] then pool else Left(Rest(pool, cs[0]), cs[1..])
  }

  /** Swapping loses nothing: what was drawn and what is left make up the pool. */
  lemma {:induction false} PoolPermuted(pool: seq<nat>, cs: seq<nat>)
    requires Choices(|pool|, cs)
    ensures multiset(Draw(pool, cs)) + multiset(Left(pool, cs)) == multiset(pool)
    decreases |cs|
  {
    if cs != [] {
      RestMultiset(pool, cs[0]);
      PoolPermuted(Rest(pool, cs[0]), cs[1..]);
      var drawn := Draw(Rest(pool, cs[0]), cs[1..]);
      assert multiset([pool[cs[0]]] + drawn) == multiset{pool[cs[0]]} + multiset(drawn);
    }
  }

  lemma RestMultiset(pool: seq<nat>, c: nat)
    requires c < |pool|
    ensures multiset(pool) == multiset{pool[c]} + multiset(Rest(pool, c))
  {
    var swapped := Swapped(pool, 0, c);
    assert swapped == [swapped[0]] + Rest(pool, c);
    assert multiset(swapped) == multiset(pool);
  }

  /** Swapping within the tail is swapping in the tail. */
  lemma SwapTail(s: seq<nat>, i: nat, c: nat)
    requires i + c < |s|
    ensures Swapped(s, i, i + c)[i..] == Swapped(s[i..], 0, c)
    ensures Swapped(s, i, i + c)[i + 1..] == Rest(s[i..], c)
    ensures Swapped(s, i, i + c)[i] == s[i..][c]
  {
  }

  /** One turn of the loop draws one more. */
  lemma StepDraws(before: seq<nat>, len: nat, cs: seq<nat>, i: nat)
    requires Choices(len, cs) && i < |cs| <= len == |before| && Choices(len, cs[..i]) && before[i..] == Left(Upto(len), cs[..i])
    ensures i + cs[i] < len && Choices(len, cs[..i + 1])
    ensures var after := Swapped(before, i, i + cs[i]);
            && after[i + 1..] == Left(Upto(len), cs[..i + 1])
            && Draw(Upto(len), cs[..i + 1]) == Draw(Upto(len), cs[..i]) + [after[i]]
  {
    assert cs[..i + 1] == cs[..i] + [cs[i]];
    DrawSnoc(Upto(len), cs[..i], cs[i]);
    SwapTail(before, i, cs[i]);
  }

  /** `k` indices out of `0..len`; `cs` is what the generator yields. */
  method SampleIndices(len: nat, k: nat, cs: seq<nat>) returns (out: seq<nat>)
    requires k < len ==> |cs| == k && Choices(len, cs)
    ensures k >= len ==> out == Upto(len)
    ensures k < len ==> out == Draw(Upto(len), cs)
    ensures |out| == Min(k, len) && Distinct(out) && forall x :: x in out ==> x < len
  {
    if len == 0 || k == 0 {
      return [];
    }
    if k >= len {
      return Upto(len);
    }
    var pool := new nat[len](i => i);
    assert pool[..] == Upto(len);
    out := [];
    for i := 0 to k
      invariant out == Draw(Upto(len), cs[..i])
      invariant pool[i..] == Left(Upto(len), cs[..i])
    {
      var j := i + cs[i];
      ghost var before := pool[..];
      assert before[i..] == pool[i..];
      StepDraws(before, len, cs, i);
      pool[i], pool[j] := pool[j], pool[i];
      assert pool[..] == Swapped(before, i, j);
      out := out + [pool[i]];
    }
    assert cs[..k] == cs;
    DrawThenRecover(Upto(len), cs);
  }
}
