/** Small helpers shared by the modules of the model. */
module Common {

  datatype Option<+T> = None | Some(value: T)

  datatype Result<+T, +E> = Ok(value: T) | Err(error: E)

  /** The index Python's built-in `max(s, key=key)` selects: the largest key,
      and among equal keys the first one in `s` (it only replaces its current
      best on a strictly greater key). */
  function ArgMaxFirst<T>(s: seq<T>, key: T -> int): (k: nat)
    requires |s| > 0
    ensures k < |s|
    ensures forall j :: 0 <= j < |s| ==> key(s[j]) <= key(s[k])
    ensures forall j :: 0 <= j < k ==> key(s[j]) < key(s[k])
  {
    MaxFrom(s, key, 0, 1)
  }

  /** The scan behind `max`: `best` is the winner among `s[..i]`. */
  function MaxFrom<T>(s: seq<T>, key: T -> int, best: nat, i: nat): (k: nat)
    requires best < i <= |s|
    requires forall j :: 0 <= j < i ==> key(s[j]) <= key(s[best])
    requires forall j :: 0 <= j < best ==> key(s[j]) < key(s[best])
    ensures best <= k < |s|
    ensures forall j :: 0 <= j < |s| ==> key(s[j]) <= key(s[k])
    ensures forall j :: 0 <= j < k ==> key(s[j]) < key(s[k])
    decreases |s| - i
  {
    if i == |s| then best
    else if key(s[i]) > key(s[best]) then MaxFrom(s, key, i, i + 1)
    else MaxFrom(s, key, best, i + 1)
  }

  /** The two properties of ArgMaxFirst pin down one index. */
  lemma FirstMaximalUnique<T>(s: seq<T>, key: T -> int, k: nat)
    requires k < |s|
    requires forall j :: 0 <= j < |s| ==> key(s[j]) <= key(s[k])
    requires forall j :: 0 <= j < k ==> key(s[j]) < key(s[k])
    ensures ArgMaxFirst(s, key) == k
  {
  }
}
