/** Values shared by the server and the client model: optional values, the
    JavaScript truthiness of request fields, the token payload, and the sequence
    operations (`filter`, `find`, `Set`-dedup) the handlers are built from. */
module Common {

  datatype Option<+T> = None | Some(value: T) {
    function GetOr(default: T): T {
      match this
      case Some(v) => v
      case None => default
    }
  }

  /** A request-body field as JavaScript sees it, for the places where the
      handlers coerce it with `!!` or test it with `if (x)`. */
  datatype Js = Undefined | Null | Bool(b: bool) | Num(n: int) | Str(s: string) | Object

  predicate Truthy(v: Js) {
    match v
    case Undefined => false
    case Null => false
    case Bool(b) => b
    case Num(n) => n != 0
    case Str(s) => s != ""
    case Object => true
  }

  /** An optional string field is falsy when it is absent or empty. */
  predicate Present(s: Option<string>) {
    s.Some? && s.value != ""
  }

  /** The payload signed into a token, `{ id, username }`; it is also what the
      middleware stores in `req.user` and what the chat client sends as `tokenUser`. */
  datatype Claims = Claims(id: nat, username: string)

  /** `xs` occurs in `ys` in order, possibly with gaps. */
  predicate IsSubseq<T(==)>(xs: seq<T>, ys: seq<T>)
    decreases |ys|
  {
    if ys == [] then xs == []
    else (xs != [] && xs[0] == ys[0] && IsSubseq(xs[1..], ys[1..])) || IsSubseq(xs, ys[1..])
  }

  lemma {:induction false} SubseqMembers<T>(xs: seq<T>, ys: seq<T>)
    requires IsSubseq(xs, ys)
    ensures forall x :: x in xs ==> x in ys
    decreases |ys|
  {
    if ys != [] {
      if xs != [] && xs[0] == ys[0] && IsSubseq(xs[1..], ys[1..]) {
        SubseqMembers(xs[1..], ys[1..]);
        assert xs == [xs[0]] + xs[1..];
      } else {
        SubseqMembers(xs, ys[1..]);
      }
    }
  }

  predicate NoDup<T(==)>(xs: seq<T>) {
    forall i, j :: 0 <= i < j < |xs| ==> xs[i] != xs[j]
  }

  /** `Array.prototype.filter`: the elements satisfying `p`, in their order. */
  function Filter<T(!new)>(xs: seq<T>, p: T -> bool): (r: seq<T>)
    ensures forall x :: x in r <==> x in xs && p(x)
    ensures IsSubseq(r, xs)
    ensures |r| <= |xs|
    decreases |xs|
  {
    if xs == [] then []
    else
      var rest := Filter(xs[1..], p);
      assert xs == [xs[0]] + xs[1..];
      if p(xs[0]) then
        assert ([xs[0]] + rest)[1..] == rest;
        [xs[0]] + rest
      else rest
  }

  /** The filter keeps every copy of a value it admits and none of one it rejects. */
  lemma {:induction false} FilterCount<T(!new)>(xs: seq<T>, p: T -> bool, x: T)
    ensures multiset(Filter(xs, p))[x] == if p(x) then multiset(xs)[x] else 0
    decreases |xs|
  {
    if xs != [] {
      FilterCount(xs[1..], p, x);
      assert xs == [xs[0]] + xs[1..];
      assert multiset(xs) == multiset([xs[0]]) + multiset(xs[1..]);
      if p(xs[0]) {
        assert multiset(Filter(xs, p)) == multiset([xs[0]]) + multiset(Filter(xs[1..], p));
      }
    }
  }

  lemma {:induction false} FilterAppend<T(!new)>(xs: seq<T>, ys: seq<T>, p: T -> bool)
    ensures Filter(xs + ys, p) == Filter(xs, p) + Filter(ys, p)
    decreases |xs|
  {
    if xs == [] {
      assert xs + ys == ys;
    } else {
      assert (xs + ys)[1..] == xs[1..] + ys;
      FilterAppend(xs[1..], ys, p);
    }
  }

  lemma {:induction false} FilterAll<T(!new)>(xs: seq<T>, p: T -> bool)
    requires forall x :: x in xs ==> p(x)
    ensures Filter(xs, p) == xs
    decreases |xs|
  {
    if xs != [] {
      FilterAll(xs[1..], p);
    }
  }

  /** Filtering keeps a duplicate-free list duplicate-free. */
  lemma {:induction false} FilterNoDup<T(!new)>(xs: seq<T>, p: T -> bool)
    requires NoDup(xs)
    ensures NoDup(Filter(xs, p))
    decreases |xs|
  {
    if xs != [] {
      FilterNoDup(xs[1..], p);
      var rest := Filter(xs[1..], p);
      assert xs[0] !in xs[1..];
      assert xs[0] !in rest;
    }
  }

  /** `findFirst`: the index of the first element satisfying `p`, if any. */
  function FindFirst<T>(xs: seq<T>, p: T -> bool): (r: Option<nat>)
    ensures r.Some? ==> r.value < |xs| && p(xs[r.value])
    ensures r.Some? ==> forall k :: 0 <= k < r.value ==> !p(xs[k])
    ensures r.None? <==> forall k :: 0 <= k < |xs| ==> !p(xs[k])
    decreases |xs|
  {
    if xs == [] then None
    else if p(xs[0]) then Some(0)
    else
      match FindFirst(xs[1..], p)
      case None => None
      case Some(i) => Some(i + 1)
  }

  /** Insertion-ordered `Set` of `xs`, read back with `Array.from`: every value
      once, at the place where it first occurs. */
  function Dedup<T(==,!new)>(xs: seq<T>): (r: seq<T>)
    ensures NoDup(r)
    ensures forall x :: x in r <==> x in xs
    decreases |xs|
  {
    if xs == [] then []
    else
      var init := Dedup(xs[..|xs| - 1]);
      var last := xs[|xs| - 1];
      assert xs == xs[..|xs| - 1] + [last];
      if last in init then init else init + [last]
  }

  /** Adding values to a `Set` never moves the values already in it. */
  lemma {:induction false} DedupPrefix<T(!new)>(xs: seq<T>, ys: seq<T>)
    ensures |Dedup(xs)| <= |Dedup(xs + ys)|
    ensures Dedup(xs + ys)[..|Dedup(xs)|] == Dedup(xs)
    decreases |ys|
  {
    if ys == [] {
      assert xs + ys == xs;
    } else {
      var ys' := ys[..|ys| - 1];
      DedupPrefix(xs, ys');
      assert (xs + ys)[..|xs + ys| - 1] == xs + ys';
    }
  }

  /** One more value goes at the end of a `Set` unless it is already there. */
  lemma DedupSnoc<T(!new)>(xs: seq<T>, x: T)
    ensures Dedup(xs + [x]) == if x in Dedup(xs) then Dedup(xs) else Dedup(xs) + [x]
  {
    assert (xs + [x])[..|xs + [x]| - 1] == xs;
  }

  /** Adding values to a `Set` that already holds the duplicate-free `xs`
      appends the new values, each once, in the order they first occur. */
  lemma {:induction false} DedupAfter<T(!new)>(xs: seq<T>, ys: seq<T>)
    requires NoDup(xs)
    ensures Dedup(xs + ys) == xs + Dedup(Filter(ys, (y: T) => y !in xs))
    decreases |ys|
  {
    if ys == [] {
      assert xs + ys == xs;
      DedupOfNoDup(xs);
    } else {
      var ys', y := ys[..|ys| - 1], ys[|ys| - 1];
      DedupAfter(xs, ys');
      assert ys == ys' + [y];
      assert xs + ys == (xs + ys') + [y];
      DedupAfterStep(xs, ys', y);
    }
  }

  /** One more value after `DedupAfter` holds for `ys`. */
  lemma DedupAfterStep<T(!new)>(xs: seq<T>, ys: seq<T>, y: T)
    requires Dedup(xs + ys) == xs + Dedup(Filter(ys, (v: T) => v !in xs))
    ensures Dedup((xs + ys) + [y]) == xs + Dedup(Filter(ys + [y], (v: T) => v !in xs))
  {
    var isNew := (v: T) => v !in xs;
    DedupSnoc(xs + ys, y);
    FilterAppend(ys, [y], isNew);
    if y in xs {
      assert Filter([y], isNew) == [];
      assert Filter(ys + [y], isNew) == Filter(ys, isNew);
    } else {
      assert Filter([y], isNew) == [y];
      DedupAfterNew(xs, Filter(ys, isNew), y);
    }
  }

  /** A value outside `xs` is in the `Set` of `xs + Dedup(zs)` exactly when it is in `zs`. */
  lemma DedupAfterNew<T(!new)>(xs: seq<T>, zs: seq<T>, y: T)
    requires y !in xs
    ensures (if y in xs + Dedup(zs) then xs + Dedup(zs) else xs + Dedup(zs) + [y]) == xs + Dedup(zs + [y])
  {
    DedupSnoc(zs, y);
  }

  /** A list without duplicates is its own `Set` order. */
  lemma {:induction false} DedupOfNoDup<T(!new)>(xs: seq<T>)
    requires NoDup(xs)
    ensures Dedup(xs) == xs
    decreases |xs|
  {
    if xs != [] {
      var init := xs[..|xs| - 1];
      DedupOfNoDup(init);
      assert xs[|xs| - 1] !in init;
      assert init + [xs[|xs| - 1]] == xs;
    }
  }

  /** Ordering of stored rows by a timestamp such as `createdAt`. */
  predicate Ascending<T>(xs: seq<T>, key: T -> int) {
    forall i, j :: 0 <= i < j < |xs| ==> key(xs[i]) < key(xs[j])
  }

  predicate Descending<T>(xs: seq<T>, key: T -> int) {
    forall i, j :: 0 <= i < j < |xs| ==> key(xs[i]) > key(xs[j])
  }

  /** Keeping only some rows of an ordered table keeps them ordered. */
  lemma {:induction false} SubseqAscending<T>(xs: seq<T>, ys: seq<T>, key: T -> int)
    requires IsSubseq(xs, ys) && Ascending(ys, key)
    ensures Ascending(xs, key)
    decreases |ys|
  {
    if ys != [] {
      if xs != [] && xs[0] == ys[0] && IsSubseq(xs[1..], ys[1..]) {
        SubseqAscending(xs[1..], ys[1..], key);
        SubseqMembers(xs[1..], ys[1..]);
        forall j | 0 < j < |xs| ensures key(xs[0]) < key(xs[j]) {
          assert xs[j] in xs[1..];
          var k :| 0 <= k < |ys[1..]| && ys[1..][k] == xs[j];
          assert ys[k + 1] == xs[j];
        }
        forall i, j | 0 < i < j < |xs| ensures key(xs[i]) < key(xs[j]) {
          assert xs[i] == xs[1..][i - 1] && xs[j] == xs[1..][j - 1];
        }
      } else {
        SubseqAscending(xs, ys[1..], key);
      }
    }
  }

  function Reverse<T>(xs: seq<T>): (r: seq<T>)
    ensures |r| == |xs|
    ensures forall i :: 0 <= i < |xs| ==> r[i] == xs[|xs| - 1 - i]
    decreases |xs|
  {
    if xs == [] then [] else Reverse(xs[1..]) + [xs[0]]
  }

  /** Reading an ascending table backwards gives it newest first, with the same rows. */
  lemma ReverseDescending<T>(xs: seq<T>, key: T -> int)
    requires Ascending(xs, key)
    ensures Descending(Reverse(xs), key)
    ensures forall x :: x in Reverse(xs) <==> x in xs
  {
    var r := Reverse(xs);
    forall x ensures x in r <==> x in xs {
      if x in xs {
        var i :| 0 <= i < |xs| && xs[i] == x;
        assert r[|xs| - 1 - i] == x;
      }
    }
  }

  /** The newest row comes first when the table is read backwards. */
  lemma ReverseSnoc<T>(xs: seq<T>, x: T)
    ensures Reverse(xs + [x]) == [x] + Reverse(xs)
  {
    var r := Reverse(xs + [x]);
    assert forall i :: 0 < i < |r| ==> r[i] == Reverse(xs)[i - 1];
  }
}
