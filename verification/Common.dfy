/** Vocabulary shared by every part of the model. */
module Common {

  datatype Option<+T> = None | Some(value: T)

  datatype Result<+T, +E> = Ok(value: T) | Err(error: E)

  // Node's timers clamp any delay outside 1 .. 2^31-1 milliseconds to one millisecond.
  const MAX_TIMER_MS := 2147483647

  function TimerDelay(ms: int): int
  {
    if 1 <= ms <= MAX_TIMER_MS then ms else 1
  }

  function Max(a: int, b: int): int
  {
    if a < b then b else a
  }

  function Min(a: int, b: int): int
  {
    if a < b then a else b
  }

  // Smallest integer at or above n / d, as Math.ceil computes it.
  function CeilDiv(n: int, d: int): (q: int)
    requires d > 0
    ensures d * (q - 1) < n <= d * q
  {
    -((-n) / d)
  }

  ghost predicate Distinct<T>(s: seq<T>)
  {
    forall i, j :: 0 <= i < j < |s| ==> s[i] != s[j]
  }

  function Elems<T>(s: seq<T>): set<T>
  {
    set x | x in s
  }

  function RemoveAt<T>(s: seq<T>, i: nat): (r: seq<T>)
    requires i < |s|
    ensures |r| == |s| - 1
  {
    s[..i] + s[i + 1..]
  }

  lemma InsertElems<T>(s: seq<T>, k: nat, x: T)
    requires k <= |s|
    ensures Elems(s[..k] + [x] + s[k..]) == Elems(s) + {x}
    ensures Distinct(s) && x !in s ==> Distinct(s[..k] + [x] + s[k..])
  {
    var r := s[..k] + [x] + s[k..];
    assert r[k] == x;
    assert s == s[..k] + s[k..];
  }

  lemma AppendElems<T>(s: seq<T>, x: T)
    ensures Elems(s + [x]) == Elems(s) + {x}
    ensures Distinct(s) && x !in s ==> Distinct(s + [x])
  {
    assert (s + [x])[|s|] == x;
  }

  lemma TailElems<T>(s: seq<T>)
    requires s != []
    ensures Elems(s) == Elems(s[1..]) + {s[0]}
    ensures Distinct(s) ==> Distinct(s[1..]) && s[0] !in s[1..]
  {
    assert s == [s[0]] + s[1..];
  }
}
