/**
 * The ListWrappingGenerator of the outline simplifier: walks over a list that
 * start at an arbitrary index and wrap from the end back to the head. The
 * Python generators become methods that return the whole sequence they yield.
 */
module ListWrapping {

  /** Uniqueness of Euclidean division: a remainder in [0, m) is THE remainder. */
  lemma ModUnique(x: int, q: int, r: int, m: int)
    requires m > 0 && 0 <= r < m && x == q * m + r
    ensures x % m == r
  {
    var d := q - x / m;
    assert x == (x / m) * m + x % m;
    assert d * m == x % m - r;
  }

  /** Adding the modulus does not change the remainder. */
  lemma ShiftMod(x: int, m: int)
    requires m > 0
    ensures (x + m) % m == x % m
  {
    assert x == (x / m) * m + x % m;
    ModUnique(x + m, x / m + 1, x % m, m);
  }

  /**
   * The start index of listAt: a negative index is first shifted by the
   * length and then reduced modulo it (Python's %, which for a positive
   * modulus is Dafny's); the shift never changes the result.
   */
  function NormalStart(idx: int, le: int): (s: nat)
    requires le > 0
    ensures s < le
    ensures s == idx % le
    ensures 0 <= idx < le ==> s == idx
  {
    if idx < 0 then ShiftMod(idx, le); (idx + le) % le else idx % le
  }

  /**
   * The index lenListAt really starts from: an index at or past the end
   * restarts from the head of the list.
   */
  function LenStart(idx: int, le: int): int {
    if idx < le then idx else 0
  }

  /** The number of items lenListAt is asked for: -1 means the whole list. */
  function EffectiveLength(length: int, le: int): int {
    if length == -1 then le else length
  }

  /** The index after i, wrapping from the last one back to 0. */
  function Next(le: nat, i: nat): nat
    requires i < le
  {
    if i + 1 == le then 0 else i + 1
  }

  /** The index reached after n steps from s. */
  function Pos(le: nat, s: nat, n: nat): (p: nat)
    requires s < le
    ensures p < le
  {
    if n == 0 then s else Next(le, Pos(le, s, n - 1))
  }

  /** One step forward moves the remainder one step, wrapping at m. */
  lemma ModStep(x: int, m: int)
    requires m > 0
    ensures (x + 1) % m == if x % m + 1 < m then x % m + 1 else 0
  {
    var q, r := x / m, x % m;
    assert x == q * m + r;
    if r + 1 < m {
      ModUnique(x + 1, q, r + 1, m);
    } else {
      assert (q + 1) * m == q * m + m;
      ModUnique(x + 1, q + 1, 0, m);
    }
  }

  /** n steps from s land on (s + n) mod le. */
  lemma {:induction false} PosIsRemainder(le: nat, s: nat, n: nat)
    requires s < le
    ensures Pos(le, s, n) == (s + n) % le
  {
    if n == 0 {
      ModUnique(s, 0, s, le);
    } else {
      PosIsRemainder(le, s, n - 1);
      ModStep(s + n - 1, le);
    }
  }

  /** The first n items of a walk around l that starts at index s. */
  function Rotated<T>(l: seq<T>, s: nat, n: nat): (r: seq<T>)
    requires s < |l|
    ensures |r| == n
  {
    if n == 0 then [] else Rotated(l, s, n - 1) + [l[Pos(|l|, s, n - 1)]]
  }

  /** Item j of the walk is the list item j steps from s. */
  lemma {:induction false} RotatedAt<T>(l: seq<T>, s: nat, n: nat, j: nat)
    requires s < |l| && j < n
    ensures Rotated(l, s, n)[j] == l[Pos(|l|, s, j)]
  {
    if j < n - 1 {
      RotatedAt(l, s, n - 1, j);
    }
  }

  /** RotatedAt for every item at once. */
  lemma RotatedAll<T>(l: seq<T>, s: nat, n: nat)
    requires s < |l|
    ensures forall j :: 0 <= j < n ==> Rotated(l, s, n)[j] == l[Pos(|l|, s, j)]
  {
    forall j | 0 <= j < n ensures Rotated(l, s, n)[j] == l[Pos(|l|, s, j)] {
      RotatedAt(l, s, n, j);
    }
  }

  /** A walk from the head visits l[j mod |l|] at step j. */
  lemma RotatedFromHead<T>(l: seq<T>, n: nat, j: nat)
    requires 0 < |l| && j < n
    ensures Rotated(l, 0, n)[j] == l[j % |l|]
  {
    RotatedAt(l, 0, n, j);
    PosIsRemainder(|l|, 0, j);
  }

  /** Within one lap, j steps from s is s + j or, past the end, s + j - |l|. */
  lemma {:induction false} PosInLap(le: nat, s: nat, j: nat)
    requires s < le && j < le
    ensures Pos(le, s, j) == if s + j < le then s + j else s + j - le
  {
    if j > 0 {
      PosInLap(le, s, j - 1);
    }
  }

  /** A full lap returns to the start. */
  lemma PosLap(le: nat, s: nat)
    requires s < le
    ensures Pos(le, s, le) == s
  {
    PosInLap(le, s, le - 1);
    assert Pos(le, s, le) == Next(le, Pos(le, s, le - 1));
  }

  /**
   * A walk of at most |l| items from s is a prefix of the rotation
   * l[s..] + l[..s]: every element at most once, beginning at l[s].
   */
  lemma RotatedPrefix<T>(l: seq<T>, s: nat, n: nat)
    requires s < |l| && n <= |l|
    ensures Rotated(l, s, n) == (l[s..] + l[..s])[..n]
  {
    var rot := l[s..] + l[..s];
    forall j | 0 <= j < n
      ensures Rotated(l, s, n)[j] == rot[j]
    {
      RotatedAt(l, s, n, j);
      PosInLap(|l|, s, j);
      if s + j < |l| {
        assert rot[j] == l[s..][j];
      } else {
        assert rot[j] == l[..s][s + j - |l|];
      }
    }
  }

  /** listAt(idx, 0) is a rotation of the list: the same multiset of items. */
  lemma FullWalkIsRotation<T>(l: seq<T>, s: nat)
    requires s < |l|
    ensures Rotated(l, s, |l|) == l[s..] + l[..s]
    ensures multiset(Rotated(l, s, |l|)) == multiset(l)
  {
    RotatedPrefix(l, s, |l|);
    assert (l[s..] + l[..s])[..|l|] == l[s..] + l[..s];
    assert l == l[..s] + l[s..];
  }

  /** A full walk from the head is the list itself. */
  lemma FullWalkFromHead<T>(l: seq<T>)
    requires |l| > 0
    ensures Rotated(l, 0, |l|) == l
  {
    FullWalkIsRotation(l, 0);
    assert l[0..] == l && l[..0] == [];
  }

  /** One more item of the walk. */
  lemma RotatedSnoc<T>(l: seq<T>, s: nat, n: nat)
    requires s < |l|
    ensures Rotated(l, s, n + 1) == Rotated(l, s, n) + [l[Pos(|l|, s, n)]]
    ensures Pos(|l|, s, n + 1) == Next(|l|, Pos(|l|, s, n))
  {
  }

  class ListWrappingGenerator<T> {
    const l: seq<T>
    const le: nat

    /** The cached length is the list's length. */
    predicate Valid() {
      le == |l|
    }

    constructor (l: seq<T>)
      ensures this.l == l && Valid()
    {
      this.l := l;
      this.le := |l|;
    }

    /**
     * listAt(idx, repeat): every element once, starting at the normalised
     * idx, then `repeat` more items continuing around the list. Python raises
     * on an empty list (modulo by zero).
     */
    method ListAt(idx: int, repeat: int) returns (out: seq<T>)
      requires Valid() && le > 0
      ensures |out| == le + (if repeat > 0 then repeat else 0)
      ensures out == Rotated(l, NormalStart(idx, le), |out|)
    {
      var start := if idx < 0 then idx + le else idx;
      start := start % le;
      assert start == NormalStart(idx, le);
      out := [];
      var i := start;
      while i < le
        invariant start <= i <= le
        invariant |out| == i - start
        invariant out == Rotated(l, start, |out|)
        invariant Pos(le, start, |out|) == if i < le then i else 0
      {
        ghost var prev := out;
        RotatedSnoc(l, start, |prev|);
        out := out + [l[i]];
        assert out == Rotated(l, start, |prev| + 1);
        i := i + 1;
      }
      i := 0;
      while i < start
        invariant 0 <= i <= start
        invariant |out| == le - start + i
        invariant out == Rotated(l, start, |out|)
        invariant Pos(le, start, |out|) == i
      {
        ghost var prev := out;
        RotatedSnoc(l, start, |prev|);
        out := out + [l[i]];
        assert out == Rotated(l, start, |prev| + 1);
        i := i + 1;
      }
      // Python's loop variable keeps its last value (start - 1, or le - 1 when
      // the second loop is empty), and `i += 1` moves one past it.
      i := if start > 0 then start else le;
      out := RepeatTail(start, out, i, repeat);
    }

    /**
     * The repeat loop of listAt: keep walking from i, wrapping to the head,
     * until `repeat` more items have been produced.
     */
    method RepeatTail(start: nat, out0: seq<T>, i0: nat, repeat: int) returns (out: seq<T>)
      requires Valid() && start < le && i0 <= le
      requires out0 == Rotated(l, start, |out0|)
      requires Pos(le, start, |out0|) == if i0 < le then i0 else 0
      ensures |out| == |out0| + (if repeat > 0 then repeat else 0)
      ensures out == Rotated(l, start, |out|)
    {
      out := out0;
      var i := i0;
      var repeated := 0;
      while repeated < repeat
        invariant 0 <= repeated && (repeated == 0 || repeated <= repeat)
        invariant 0 <= i <= le
        invariant |out| == |out0| + repeated
        invariant out == Rotated(l, start, |out|)
        invariant Pos(le, start, |out|) == if i < le then i else 0
        decreases repeat - repeated, if i < le then 0 else 1
      {
        ghost var i1, r1 := i, repeated;
        while i < le
          invariant i1 <= i <= le
          invariant repeated - r1 == i - i1
          invariant repeated < repeat
          invariant |out| == |out0| + repeated
          invariant out == Rotated(l, start, |out|)
          invariant Pos(le, start, |out|) == if i < le then i else 0
        {
          repeated := repeated + 1;
          ghost var prev := out;
          RotatedSnoc(l, start, |prev|);
          out := out + [l[i]];
          assert out == Rotated(l, start, |prev| + 1);
          if repeated >= repeat {
            return;
          }
          i := i + 1;
        }
        i := 0;
      }
    }

    /**
     * lenListAt(idx, length): exactly `length` items (the whole list for
     * -1, nothing for a negative count), walking from idx and wrapping.
     * The Python reads l[le] and raises when idx is past the end and more
     * than le items are asked for; callers pass a non-negative idx.
     */
    method LenListAt(idx: int, length: int) returns (out: seq<T>)
      requires Valid() && le > 0
      requires 0 <= idx
      requires idx <= le || EffectiveLength(length, le) <= le
      ensures |out| == if EffectiveLength(length, le) > 0 then EffectiveLength(length, le) else 0
      ensures out == Rotated(l, LenStart(idx, le), |out|)
    {
      var len := if length == -1 then le else length;
      var s: nat := LenStart(idx, le);
      var c := 0;
      out := [];
      var i := idx;
      while i < le
        invariant idx < le ==> idx <= i <= le
        invariant idx >= le ==> i == idx
        invariant c == |out| == i - idx
        invariant c == 0 || c <= len
        invariant out == Rotated(l, s, |out|)
        invariant Pos(le, s, |out|) == if i < le then i else 0
      {
        c := c + 1;
        if c > len {
          return;
        }
        ghost var prev := out;
        RotatedSnoc(l, s, |prev|);
        out := out + [l[i]];
        assert out == Rotated(l, s, |prev| + 1);
        i := i + 1;
      }
      i := 0;
      while i < idx
        invariant 0 <= i <= idx
        invariant c == |out| == (if idx < le then le - idx else 0) + i
        invariant c == 0 || c <= len
        invariant out == Rotated(l, s, |out|)
        invariant Pos(le, s, |out|) == if i < le then i else 0
      {
        c := c + 1;
        if c > len {
          return;
        }
        ghost var prev := out;
        RotatedSnoc(l, s, |prev|);
        out := out + [l[i]];
        assert out == Rotated(l, s, |prev| + 1);
        i := i + 1;
      }
      // As in ListAt: one past the last value of the loop variable.
      i := if idx > 0 then idx else le;
      out := LenTail(s, out, i, len);
    }

    /**
     * The last loop of lenListAt: keep walking from i, wrapping to the head,
     * until len items have been produced in all.
     */
    method LenTail(s: nat, out0: seq<T>, i0: nat, len: int) returns (out: seq<T>)
      requires Valid() && s < le && i0 <= le
      requires out0 == Rotated(l, s, |out0|)
      requires Pos(le, s, |out0|) == if i0 < le then i0 else 0
      requires |out0| == 0 || |out0| <= len
      ensures |out| == if |out0| <= len then len else |out0|
      ensures out == Rotated(l, s, |out|)
    {
      out := out0;
      var c := |out0|;
      var i := i0;
      while c <= len
        invariant 0 <= i <= le
        invariant c == |out|
        invariant c == 0 || c <= len
        invariant out == Rotated(l, s, |out|)
        invariant Pos(le, s, |out|) == if i < le then i else 0
        decreases len - c, if i < le then 0 else 1
      {
        ghost var i1, c1 := i, c;
        while i < le
          invariant i1 <= i <= le
          invariant c - c1 == i - i1
          invariant c == |out| <= len
          invariant out == Rotated(l, s, |out|)
          invariant Pos(le, s, |out|) == if i < le then i else 0
        {
          c := c + 1;
          if c > len {
            return;
          }
          ghost var prev := out;
          RotatedSnoc(l, s, |prev|);
          out := out + [l[i]];
          assert out == Rotated(l, s, |prev| + 1);
          i := i + 1;
        }
        i := 0;
      }
    }
  }
}
