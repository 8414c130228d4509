/** Python's rules for slice bounds. */
module PythonSlices {

  /** A bound, counted from the end if negative, clipped to the sequence. */
  function Clip(n: int, len: nat): (r: nat)
    ensures r <= len && (0 <= n <= len ==> r == n)
  {
    if n < 0 then (if len + n < 0 then 0 else len + n) else if n > len then len else n
  }

  /** s[a:b] */
  function PySlice(s: string, a: int, b: int): string {
    var x, y := Clip(a, |s|), Clip(b, |s|);
    if x <= y then s[x..y] else ""
  }

  /** A slice of a slice is a slice at the sum of the offsets. */
  lemma SliceOfSlice(s: string, o: nat, n: nat, a: nat, b: nat)
    requires o + n <= |s| && a <= b <= n
    ensures s[o..o + n][a..b] == s[o + a..o + b]
  {
    var t := s[o..o + n];
    assert forall i | 0 <= i < b - a :: t[a..b][i] == s[o + a..o + b][i];
  }
}
