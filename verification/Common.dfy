/** Bytes, optional values and facts about sequences, shared by every component. */
module Common {

  newtype byte = x: int | 0 <= x < 256

  datatype Option<+T> = None | Some(value: T)

  function Min(a: nat, b: nat): nat {
    if a < b then a else b
  }

  function Max(a: nat, b: nat): nat {
    if a < b then b else a
  }

  lemma {:induction false} AppendOne<T>(s: seq<T>, x: T)
    ensures (s + [x])[..|s + [x]| - 1] == s
    ensures (s + [x])[|s + [x]| - 1] == x
  {
  }

  lemma {:induction false} Associate<T>(a: seq<T>, b: seq<T>, c: seq<T>)
    ensures a + b + c == a + (b + c)
  {
  }

  lemma {:induction false} DropAppended<T>(s: seq<T>, t: seq<T>, i: nat)
    ensures i <= |s| ==> (s + t)[i..] == s[i..] + t
    ensures i == |s| ==> (s + t)[i..] == t
  {
  }

  lemma {:induction false} DropTwice<T>(s: seq<T>, i: nat, n: nat)
    ensures i + n <= |s| ==> s[i..][n..] == s[i + n..]
  {
  }

  lemma {:induction false} SliceTail<T>(s: seq<T>, i: nat, j: nat, n: nat)
    requires i + n <= j <= |s|
    ensures s[i..j][n..] == s[i + n..j]
  {
  }
}
