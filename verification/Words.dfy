/** Machine words, options and bounded kernel hash maps shared by every stage of the pipeline. */
module Words {

  datatype Option<+T> = None | Some(value: T)

  const TWO_32 := 0x1_0000_0000
  const TWO_64 := 0x1_0000_0000_0000_0000

  type U32 = x: int | 0 <= x < 0x1_0000_0000
  type I32 = x: int | -0x8000_0000 <= x < 0x8000_0000
  type I64 = x: int | -0x8000_0000_0000_0000 <= x < 0x8000_0000_0000_0000
  type U64 = x: int | 0 <= x < 0x1_0000_0000_0000_0000

  /** The value a 64-bit register keeps of an unbounded result. */
  function Wrap(x: int): U64 {
    x % 0x1_0000_0000_0000_0000
  }

  /** Wrapping after every addition loses nothing over wrapping the exact sum once. */
  lemma WrapAdd(x: int, y: int)
    ensures Wrap(Wrap(x) + y) == Wrap(x + y)
    ensures Wrap(Wrap(x) + Wrap(y)) == Wrap(x + y)
  {
    assert x == TWO_64 * (x / TWO_64) + Wrap(x);
    assert y == TWO_64 * (y / TWO_64) + Wrap(y);
    WrapShift(x + Wrap(y), y / TWO_64);
    WrapShift(Wrap(x) + y, x / TWO_64);
    WrapShift(Wrap(x) + Wrap(y), y / TWO_64);
    assert Wrap(x) + Wrap(y) + TWO_64 * (y / TWO_64) == Wrap(x) + y;
  }

  lemma WrapSmall(x: int)
    requires 0 <= x < TWO_64
    ensures Wrap(x) == x
  {
  }

  lemma WrapShift(x: int, k: int)
    ensures Wrap(x + TWO_64 * k) == Wrap(x)
  {
    var q := x / TWO_64;
    assert x + TWO_64 * k == TWO_64 * (q + k) + x % TWO_64;
  }

  lemma MulMono(x: int, y: int, k: nat)
    requires x <= y
    ensures x * k <= y * k && k * x <= k * y
  {
  }

  /** bpf_map_update_elem with BPF_ANY: replaces an entry, inserts one while there is room, and
      otherwise fails without effect. */
  function UpdateAny<K, V>(m: map<K, V>, k: K, v: V, capacity: nat): map<K, V> {
    if k in m || |m| < capacity then m[k := v] else m
  }

  lemma UpdateAnyKeepsBound<K, V>(m: map<K, V>, k: K, v: V, capacity: nat)
    requires |m| <= capacity
    ensures |UpdateAny(m, k, v, capacity)| <= capacity
    ensures |m| <= |UpdateAny(m, k, v, capacity)| <= |m| + 1
    ensures k in m ==> |UpdateAny(m, k, v, capacity)| == |m|
    ensures k !in m && |m| < capacity ==> |UpdateAny(m, k, v, capacity)| == |m| + 1
  {
    if k in m {
      assert m[k := v].Keys == m.Keys;
    } else {
      assert m[k := v].Keys == m.Keys + {k};
    }
  }

  lemma SubsetSize<T>(a: set<T>, b: set<T>)
    requires a <= b
    ensures |a| <= |b|
    ensures a < b ==> |a| < |b|
  {
    assert b == a + (b - a);
    assert a !! (b - a);
  }

  function Front<T>(s: seq<T>): seq<T>
    requires s != []
  {
    s[..|s| - 1]
  }

  function Last<T>(s: seq<T>): T
    requires s != []
  {
    s[|s| - 1]
  }

  /** One turn of a loop that takes the elements of a finite set in any order. */
  lemma TakeOne<T>(all: set<T>, todo: set<T>, x: T)
    requires todo <= all && x in todo
    ensures all - (todo - {x}) == (all - todo) + {x}
    ensures x !in all - todo && |todo - {x}| < |todo|
  {
  }
}
