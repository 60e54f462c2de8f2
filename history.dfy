/**
 * The recently-opened-files history: the list of paths the editor has moved
 * away from, most recent first, its visible window of at most ten entries,
 * and the sidebar cursor that Up and Down move within that window.
 */
module History {
  /** Largest value of Rust's usize on a 64-bit target. */
  const UsizeMax: nat := 0xFFFF_FFFF_FFFF_FFFF

  /** A value of Rust's usize: the sidebar cursor and window sizes. */
  type Usize = n: nat | n <= UsizeMax

  /** Only this many history entries are shown and navigable. */
  const VisibleWindow: nat := 10

  predicate NoDuplicates(files: seq<string>)
  {
    forall i, j :: 0 <= i < j < |files| ==> files[i] != files[j]
  }

  /** Size k of the visible window: the number of entries `take(10)` yields. */
  function Window(files: seq<string>): (k: Usize)
    ensures k <= VisibleWindow && k <= |files|
    ensures k == |files| || k == VisibleWindow
  {
    if |files| < VisibleWindow then |files| else VisibleWindow
  }

  /**
   * The cursor after Up: `saturating_sub(1)` then `% k`. There is no
   * wrap-around: from the first entry the cursor stays on the first entry.
   */
  function MoveUp(i: Usize, k: Usize): (r: Usize)
    requires k > 0
    ensures r < k
    ensures i < k ==> r == (if i == 0 then 0 else i - 1)
  {
    var j := if i == 0 then 0 else i - 1;
    assert j < k ==> j % k == j by {
      if j < k { ModUnique(j, 0, j, k); }
    }
    j % k
  }

  /**
   * The cursor after Down: `saturating_add(1)` then `% k`, so the last entry
   * of the window is followed by the first.
   */
  function MoveDown(i: Usize, k: Usize): (r: Usize)
    requires k > 0
    ensures r < k
    ensures i < k ==> r == (if i + 1 == k then 0 else i + 1)
  {
    (if i == UsizeMax then i else i + 1) % k
  }

  /** The cursor after n presses of Down. */
  function DownTimes(i: Usize, k: Usize, n: nat): (r: Usize)
    requires i < k
    decreases n
  {
    if n == 0 then i else DownTimes(MoveDown(i, k), k, n - 1)
  }

  /** The cursor after n presses of Up. */
  function UpTimes(i: Usize, k: Usize, n: nat): (r: Usize)
    requires i < k
    decreases n
  {
    if n == 0 then i else UpTimes(MoveUp(i, k), k, n - 1)
  }

  lemma MulAtLeast(a: int, k: int)
    requires a >= 1 && k > 0
    ensures a * k >= k
  {
  }

  /** The remainder is determined by any quotient-remainder decomposition. */
  lemma ModUnique(x: int, q: int, r: int, k: int)
    requires k > 0 && 0 <= r < k && x == q * k + r
    ensures x % k == r
  {
    var q', r' := x / k, x % k;
    assert x == q' * k + r';
    assert (q - q') * k == r' - r;
    if q > q' { MulAtLeast(q - q', k); }
    if q < q' { MulAtLeast(q' - q, k); }
  }

  lemma ModAddDivisor(m: nat, k: nat)
    requires k > 0
    ensures (m + k) % k == m % k
  {
    var q, r := m / k, m % k;
    assert m == q * k + r;
    assert m + k == (q + 1) * k + r;
    ModUnique(m + k, q + 1, r, k);
  }

  /** n presses of Down advance the cursor by n positions, modulo the window size. */
  lemma {:induction false} DownTimesAdvances(i: Usize, k: Usize, n: nat)
    requires i < k
    ensures DownTimes(i, k, n) == (i + n) % k
    decreases n
  {
    if n == 0 {
      ModUnique(i, 0, i, k);
    } else {
      var j := MoveDown(i, k);
      DownTimesAdvances(j, k, n - 1);
      assert DownTimes(i, k, n) == (j + (n - 1)) % k;
      if i + 1 == k {
        assert j == 0;
        ModAddDivisor(n - 1, k);
        assert i + n == (n - 1) + k;
      } else {
        assert j == i + 1;
        assert j + (n - 1) == i + n;
      }
    }
  }

  /** Full-cycle law: k presses of Down return the cursor to where it started. */
  lemma DownFullCycle(i: Usize, k: Usize)
    requires i < k
    ensures DownTimes(i, k, k) == i
  {
    DownTimesAdvances(i, k, k);
    ModAddDivisor(i, k);
    ModUnique(i, 0, i, k);
  }

  /** n presses of Up move the cursor back n positions, stopping at the first entry. */
  lemma {:induction false} UpTimesSaturates(i: Usize, k: Usize, n: nat)
    requires i < k
    ensures UpTimes(i, k, n) == (if n >= i then 0 else i - n)
    decreases n
  {
    if n > 0 {
      UpTimesSaturates(MoveUp(i, k), k, n - 1);
    }
  }

  /**
   * Up has no full-cycle law: k presses of Up bring every cursor to the first
   * entry, so from any other entry they do not return to the start.
   */
  lemma UpFullWindow(i: Usize, k: Usize)
    requires i < k
    ensures UpTimes(i, k, k) == 0
    ensures i > 0 ==> UpTimes(i, k, k) != i
  {
    UpTimesSaturates(i, k, k);
  }

  /**
   * The history after the active path changes from current to path: the old
   * path is put in front when it differs from the new one and is not yet listed.
   */
  function Recorded(files: seq<string>, current: string, path: string): seq<string>
  {
    if current != path && current !in files then [current] + files else files
  }

  /**
   * What recording does to the history: it grows by at most the old path,
   * keeps its old contents as a suffix, gains exactly the old path when that
   * differs from the new one, and stays free of repeats.
   */
  lemma RecordedLaws(files: seq<string>, current: string, path: string)
    ensures var r := Recorded(files, current, path);
      (|r| == |files| || |r| == |files| + 1) &&
      (|r| == |files| + 1 <==> current != path && current !in files) &&
      (|r| == |files| + 1 ==> r[0] == current) &&
      r[|r| - |files|..] == files &&
      (forall x :: x in r <==> x in files || (x == current && current != path)) &&
      (NoDuplicates(files) ==> NoDuplicates(r))
  {
    var r := Recorded(files, current, path);
    if r != files {
      assert r[1..] == files;
      if NoDuplicates(files) {
        forall i, j | 0 <= i < j < |r| ensures r[i] != r[j] {
          if i == 0 { assert r[j] == files[j - 1]; assert r[j] in files; }
          else { assert r[i] == files[i - 1] && r[j] == files[j - 1]; }
        }
      }
    }
  }
}
