// Values shared by every service of the settlement pipeline.
module Common {

  datatype Option<+T> = None | Some(value: T)

  datatype Result<+T, +E> = Success(value: T) | Failure(error: E)

  /** A UUIDv7, ordered as the database orders it; later ids are larger. */
  type Uuid = nat

  /** Seconds since the zero instant of Go's time.Time (January 1 of year 1, UTC). */
  type Time = int

  const ZERO_TIME: Time := 0
  const UNIX_EPOCH: Time := 62135596800

  /** The textual form of ids: `parse` is partial and may accept several spellings of one id. */
  datatype UuidText = UuidText(parse: string -> Option<Uuid>, show: Uuid -> string)
  {
    ghost predicate Faithful() {
      forall u: Uuid :: parse(show(u)) == Some(u) && show(u) != ""
    }
  }

  /** Flattens the batches a consumer fetched; a fetch that failed delivers nothing. */
  function Flatten<T>(batches: seq<Option<seq<T>>>): seq<T> {
    if batches == [] then []
    else
      Flatten(batches[..|batches| - 1]) +
      (match batches[|batches| - 1] case Some(batch) => batch case None => [])
  }

  lemma FlattenNext<T>(batches: seq<Option<seq<T>>>, i: nat)
    requires i < |batches|
    ensures Flatten(batches[..i + 1]) ==
            match batches[i] case Some(batch) => Flatten(batches[..i]) + batch case None => Flatten(batches[..i])
  {
    assert batches[..i + 1][..i] == batches[..i];
    assert Flatten(batches[..i]) + [] == Flatten(batches[..i]);
  }

  lemma SwapPermutes<T>(s: seq<T>, i: nat, j: nat)
    requires i < j < |s|
    ensures multiset(s[i := s[j]][j := s[i]]) == multiset(s)
  {
  }

  function Map<T, U>(f: T -> U, s: seq<T>): seq<U> {
    seq(|s|, i requires 0 <= i < |s| => f(s[i]))
  }

  lemma MapConcat<T, U>(f: T -> U, a: seq<T>, b: seq<T>)
    ensures Map(f, a + b) == Map(f, a) + Map(f, b)
  {
  }

  function Without<T>(s: seq<T>, i: nat): seq<T>
    requires i < |s|
  {
    s[..i] + s[i + 1..]
  }

  lemma WithoutOne<T>(s: seq<T>, i: nat)
    requires i < |s|
    ensures multiset(s) == multiset(Without(s, i)) + multiset{s[i]}
  {
    assert s == s[..i] + [s[i]] + s[i + 1..];
  }

  /** Two non-empty reorderings of each other share their first element; removing it keeps them so. */
  lemma MatchFirst<T>(a: seq<T>, b: seq<T>) returns (i: nat)
    requires multiset(a) == multiset(b) && a != []
    ensures i < |b| && b[i] == a[0]
    ensures multiset(Without(a, 0)) == multiset(Without(b, i))
  {
    assert a[0] in multiset(a);
    i :| i < |b| && b[i] == a[0];
    WithoutOne(a, 0);
    WithoutOne(b, i);
    assert multiset(Without(a, 0)) == multiset(a) - multiset{a[0]};
    assert multiset(Without(b, i)) == multiset(b) - multiset{b[i]};
  }

  lemma EmptyPermuted<T>(a: seq<T>, b: seq<T>)
    requires multiset(a) == multiset(b) && a == []
    ensures b == []
  {
    assert |multiset(b)| == 0;
  }

  /** The least id of a non-empty set: what "ORDER BY id LIMIT 1" picks. */
  ghost predicate IsLeast(k: Uuid, ids: set<Uuid>) {
    k in ids && forall j :: j in ids ==> k <= j
  }

  lemma LeastExists(ids: set<Uuid>)
    requires ids != {}
    ensures exists k :: IsLeast(k, ids)
  {
    var x :| x in ids;
    var rest := ids - {x};
    assert ids == rest + {x};
    if rest == {} {
      assert IsLeast(x, ids);
    } else {
      LeastExists(rest);
      var k :| IsLeast(k, rest);
      assert IsLeast(if x < k then x else k, ids);
    }
  }

  ghost function Least(ids: set<Uuid>): (k: Uuid)
    requires ids != {}
    ensures IsLeast(k, ids)
  {
    LeastExists(ids);
    var k :| IsLeast(k, ids);
    k
  }
}

// Fixed-width integers of the source, with wrap-around written out.
module Machine {

  const TWO_31: int := 0x8000_0000
  const TWO_63: int := 0x8000_0000_0000_0000
  const TWO_64: int := 0x1_0000_0000_0000_0000
  const MIN_INT64: int := -TWO_63

  type Int32 = x: int | -TWO_31 <= x < TWO_31
  type Int64 = x: int | -TWO_63 <= x < TWO_63

  predicate FitsInt32(x: int) {
    -TWO_31 <= x < TWO_31
  }

  predicate FitsInt64(x: int) {
    -TWO_63 <= x < TWO_63
  }

  predicate Congruent(x: int, y: int) {
    (x - y) % TWO_64 == 0
  }

  /** Two's-complement truncation to 64 bits. */
  function Wrap(x: int): (r: Int64)
    ensures Congruent(r, x)
    ensures FitsInt64(x) ==> r == x
  {
    (x + TWO_63) % TWO_64 - TWO_63
  }

  /** Only one int64 is congruent to a given integer, so congruence pins down what Wrap returns. */
  lemma WrapUnique(x: int, r: Int64)
    requires Congruent(r, x)
    ensures r == Wrap(x)
  {
    var d := (r - x) / TWO_64;
    assert r == x + d * TWO_64;
    var e := (Wrap(x) - x) / TWO_64;
    assert Wrap(x) == x + e * TWO_64;
  }

  lemma CongruentTrans(x: int, y: int, z: int)
    requires Congruent(x, y) && Congruent(y, z)
    ensures Congruent(x, z)
  {
    assert x - z == ((x - y) / TWO_64 + (y - z) / TWO_64) * TWO_64;
  }

  lemma CongruentSum(a: int, a': int, b: int, b': int)
    requires Congruent(a, a') && Congruent(b, b')
    ensures Congruent(a + b, a' + b')
  {
    var d := (a - a') / TWO_64;
    var e := (b - b') / TWO_64;
    assert a + b - (a' + b') == (d + e) * TWO_64;
  }

  /** Adding with wrap-around at every step is adding exactly and wrapping once. */
  lemma WrapAdd(a: int, b: int)
    ensures Wrap(Wrap(a) + Wrap(b)) == Wrap(a + b)
    ensures Wrap(Wrap(a) + b) == Wrap(a + b)
  {
    var whole, part := Wrap(a) + Wrap(b), Wrap(a) + b;
    CongruentSum(Wrap(a), a, Wrap(b), b);
    CongruentSum(Wrap(a), a, b, b);
    CongruentTrans(Wrap(whole), whole, a + b);
    CongruentTrans(Wrap(part), part, a + b);
    WrapUnique(a + b, Wrap(whole));
    WrapUnique(a + b, Wrap(part));
  }

  /** Go's integer division truncates toward zero. */
  function Quotient(x: int, y: int): int
    requires y > 0
  {
    if x >= 0 then x / y else -((-x) / y)
  }

  function Remainder(x: int, y: int): int
    requires y > 0
  {
    if x >= 0 then x % y else -((-x) % y)
  }
}
