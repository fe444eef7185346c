/** Result shapes shared by the models. */
module Common {

  datatype Option<+T> = None | Some(value: T)

  datatype Result<+T, +E> = Ok(value: T) | Err(error: E)

  /** `r` is what an ordered map answers when asked for the entry just below `key`. */
  ghost predicate IsPredecessor<V>(m: map<int, V>, key: int, r: Option<V>) {
    match r
    case None => forall k :: k in m ==> key <= k
    case Some(v) => exists b :: b in m && b < key && m[b] == v && forall k :: k in m && k < key ==> k <= b
  }

  /** `r` is what an ordered map answers when asked for the entry just above `key`. */
  ghost predicate IsSuccessor<V>(m: map<int, V>, key: int, r: Option<V>) {
    match r
    case None => forall k :: k in m ==> k <= key
    case Some(v) => exists b :: b in m && b > key && m[b] == v && forall k :: k in m && k > key ==> b <= k
  }

  ghost predicate NoDup<T>(s: seq<T>) { forall i, j :: 0 <= i < j < |s| ==> s[i] != s[j] }

  // ----- Counting down -----

  function TicksOf<T>(ticks: map<T, nat>, t: T): nat { if t in ticks then ticks[t] else 0 }

  /** Those among the first i whose last tick this is, in order. */
  function Due<T(==)>(s: seq<T>, ticks: map<T, nat>, i: nat): seq<T>
    requires i <= |s|
  {
    if i == 0 then [] else Due(s, ticks, i - 1) + (if TicksOf(ticks, s[i - 1]) == 1 then [s[i - 1]] else [])
  }

  /** The others among the first i. */
  function Kept<T(==)>(s: seq<T>, ticks: map<T, nat>, i: nat): seq<T>
    requires i <= |s|
  {
    if i == 0 then [] else Kept(s, ticks, i - 1) + (if TicksOf(ticks, s[i - 1]) == 1 then [] else [s[i - 1]])
  }

  const U64_LIMIT: nat := 0x1_0000_0000_0000_0000

  /** Addition of 64-bit words, which wraps around. */
  function Add64(a: nat, b: nat): (r: nat)
    ensures r < U64_LIMIT && (a + b < U64_LIMIT ==> r == a + b)
  {
    (a + b) % U64_LIMIT
  }
}
