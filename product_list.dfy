/** The list edits every store performs on its sequence of products: the
    id-keyed replacement of `updateProduct`, the `removeIf` of `deleteProduct`
    and the "largest id plus one" of the spreadsheet stores' `addProduct`. */
module ProductList {
  import opened JavaInt
  import opened Outcomes
  import opened ProductModel

  /** Some entry carries `id`. */
  predicate HasId(ps: seq<Product>, id: int32)
  {
    exists i :: 0 <= i < |ps| && ps[i].id == id
  }

  /** No two entries share an id. */
  predicate DistinctIds(ps: seq<Product>)
  {
    forall i, j :: 0 <= i < j < |ps| ==> ps[i].id != ps[j].id
  }

  /** Every id lies in `[lo, hi)`. */
  predicate IdsWithin(ps: seq<Product>, lo: int, hi: int)
  {
    forall i :: 0 <= i < |ps| ==> lo <= ps[i].id as int < hi
  }

  /** The position of the first entry carrying `id`, if any. */
  function FirstMatch(ps: seq<Product>, id: int32): (r: Option<nat>)
    ensures r.Some? ==> r.value < |ps| && ps[r.value].id == id
    ensures r.Some? ==> forall j :: 0 <= j < r.value ==> ps[j].id != id
    ensures r.None? <==> !HasId(ps, id)
  {
    if ps == [] then None
    else if ps[0].id == id then Some(0)
    else match FirstMatch(ps[1..], id)
      case None => None
      case Some(k) => Some(k + 1)
  }

  /** `updateProduct`'s effect on the list: the first entry with `p`'s id
      becomes `p`; without such an entry the list is unchanged. */
  function ReplaceFirst(ps: seq<Product>, p: Product): (r: seq<Product>)
    ensures |r| == |ps|
    ensures forall j :: 0 <= j < |ps| ==> r[j] == ps[j] || r[j] == p
  {
    match FirstMatch(ps, p.id)
    case None => ps
    case Some(i) => ps[i := p]
  }

  /** `removeIf(q -> q.getId() == id)`: every entry carrying `id` dropped,
      the others kept in order. */
  function RemoveId(ps: seq<Product>, id: int32): (r: seq<Product>)
    ensures |r| <= |ps|
    ensures forall k :: 0 <= k < |r| ==> r[k].id != id
  {
    if ps == [] then []
    else (if ps[0].id == id then [] else [ps[0]]) + RemoveId(ps[1..], id)
  }

  /** `stream().mapToInt(getId).max().orElse(0)`. */
  function MaxIdOr0(ps: seq<Product>): (m: int32)
    ensures ps == [] ==> m == 0
    ensures ps != [] ==> HasId(ps, m)
    ensures forall i :: 0 <= i < |ps| ==> ps[i].id <= m
  {
    if ps == [] then 0
    else if |ps| == 1 then ps[0].id
    else
      var rest := MaxIdOr0(ps[1..]);
      assert forall i :: 1 <= i < |ps| ==> ps[i] == ps[1..][i - 1];
      if ps[0].id < rest then rest else ps[0].id
  }

  /** The spreadsheet stores' new id as the source computes it: Java's
      `max + 1` on `int`, which wraps when the largest id is `MaxInt`. */
  function NewIdAsWritten(ps: seq<Product>): (r: int32)
    ensures MaxIdOr0(ps) as int < MaxInt ==> r as int == MaxIdOr0(ps) as int + 1
    ensures MaxIdOr0(ps) as int == MaxInt ==> r as int == MinInt
  {
    Wrap(MaxIdOr0(ps) as int + 1)
  }

  /** The new id the spreadsheet stores intend: one more than the largest id,
      1 for an empty list, and no id when the largest id is already `MaxInt`. */
  function NewId(ps: seq<Product>): (r: Option<int32>)
    ensures r.Some? ==> forall i :: 0 <= i < |ps| ==> ps[i].id < r.value
    ensures ps == [] ==> r == Some(1)
  {
    var m := MaxIdOr0(ps);
    if m as int == MaxInt then None else Some(m + 1)
  }

  // ---- ReplaceFirst -------------------------------------------------------

  /** Only the first entry with `p`'s id is replaced, at its own position;
      length and every other entry are unchanged; no match means no change. */
  lemma ReplaceFirstSpec(ps: seq<Product>, p: Product)
    ensures |ReplaceFirst(ps, p)| == |ps|
    ensures !HasId(ps, p.id) ==> ReplaceFirst(ps, p) == ps
    ensures HasId(ps, p.id) ==>
      exists i :: 0 <= i < |ps| && ps[i].id == p.id
        && (forall j :: 0 <= j < i ==> ps[j].id != p.id)
        && ReplaceFirst(ps, p) == ps[i := p]
  {
    match FirstMatch(ps, p.id)
    case None =>
    case Some(i) =>
      assert ReplaceFirst(ps, p) == ps[i := p];
  }

  /** Replacing keeps the id at every position, so both store invariants hold
      afterwards whenever they held before. */
  lemma {:induction false} ReplaceFirstKeepsIds(ps: seq<Product>, p: Product, lo: int, hi: int)
    ensures |ReplaceFirst(ps, p)| == |ps|
    ensures forall j :: 0 <= j < |ps| ==> ReplaceFirst(ps, p)[j].id == ps[j].id
    ensures DistinctIds(ps) ==> DistinctIds(ReplaceFirst(ps, p))
    ensures IdsWithin(ps, lo, hi) ==> IdsWithin(ReplaceFirst(ps, p), lo, hi)
  {
    var r := ReplaceFirst(ps, p);
    match FirstMatch(ps, p.id)
    case None =>
    case Some(i) =>
      assert forall j :: 0 <= j < |ps| ==> r[j].id == ps[j].id;
  }

  // ---- RemoveId -----------------------------------------------------------

  /** An entry survives exactly when it was there and does not carry `id`. */
  lemma {:induction false} RemoveIdMembers(ps: seq<Product>, id: int32)
    ensures forall q :: q in RemoveId(ps, id) <==> q in ps && q.id != id
  {
    if ps != [] {
      RemoveIdMembers(ps[1..], id);
      assert ps == [ps[0]] + ps[1..];
    }
  }

  /** Removing distributes over concatenation: the survivors keep their order. */
  lemma {:induction false} RemoveIdConcat(a: seq<Product>, b: seq<Product>, id: int32)
    ensures RemoveId(a + b, id) == RemoveId(a, id) + RemoveId(b, id)
  {
    if a == [] {
      assert a + b == b;
    } else {
      assert (a + b)[1..] == a[1..] + b;
      RemoveIdConcat(a[1..], b, id);
    }
  }

  /** An absent id leaves the list unchanged. */
  lemma {:induction false} RemoveIdAbsent(ps: seq<Product>, id: int32)
    requires !HasId(ps, id)
    ensures RemoveId(ps, id) == ps
  {
    if ps != [] {
      assert !HasId(ps[1..], id) by {
        forall i | 0 <= i < |ps[1..]| ensures ps[1..][i].id != id {
          assert ps[1..][i] == ps[i + 1];
        }
      }
      RemoveIdAbsent(ps[1..], id);
    }
  }

  /** Removing never grows the list, and shrinks it exactly when the id was there. */
  lemma {:induction false} RemoveIdLength(ps: seq<Product>, id: int32)
    ensures |RemoveId(ps, id)| <= |ps|
    ensures |RemoveId(ps, id)| < |ps| <==> HasId(ps, id)
  {
    if ps != [] {
      RemoveIdLength(ps[1..], id);
      if HasId(ps[1..], id) {
        var i :| 0 <= i < |ps[1..]| && ps[1..][i].id == id;
        assert ps[i + 1].id == id;
      }
      if HasId(ps, id) && ps[0].id != id {
        var i :| 0 <= i < |ps| && ps[i].id == id;
        assert ps[1..][i - 1].id == id;
      }
    }
  }

  /** The store invariants survive a removal. */
  lemma {:induction false} RemoveIdKeepsInvariant(ps: seq<Product>, id: int32, lo: int, hi: int)
    ensures DistinctIds(ps) ==> DistinctIds(RemoveId(ps, id))
    ensures IdsWithin(ps, lo, hi) ==> IdsWithin(RemoveId(ps, id), lo, hi)
  {
    var r := RemoveId(ps, id);
    RemoveIdMembers(ps, id);
    if IdsWithin(ps, lo, hi) {
      forall i | 0 <= i < |r| ensures lo <= r[i].id as int < hi {
        assert r[i] in ps;
      }
    }
    if ps != [] && DistinctIds(ps) {
      var tail := RemoveId(ps[1..], id);
      assert DistinctIds(ps[1..]) by {
        forall i, j | 0 <= i < j < |ps[1..]| ensures ps[1..][i].id != ps[1..][j].id {
          assert ps[1..][i] == ps[i + 1] && ps[1..][j] == ps[j + 1];
        }
      }
      RemoveIdKeepsInvariant(ps[1..], id, lo, hi);
      RemoveIdMembers(ps[1..], id);
      forall k | 0 <= k < |tail| ensures tail[k].id != ps[0].id {
        assert tail[k] in ps[1..];
        var m :| 0 <= m < |ps[1..]| && ps[1..][m] == tail[k];
        assert ps[m + 1] == tail[k];
      }
      assert r == (if ps[0].id == id then [] else [ps[0]]) + tail;
    }
  }

  // ---- new ids ------------------------------------------------------------

  /** The intended new id is larger than every stored id, is 1 for an empty
      list, and is missing only when some stored id is already `MaxInt`. */
  lemma NewIdFresh(ps: seq<Product>)
    ensures NewId(ps).Some? ==> forall i :: 0 <= i < |ps| ==> ps[i].id < NewId(ps).value
    ensures ps == [] ==> NewId(ps) == Some(1)
    ensures NewId(ps).None? <==> HasId(ps, MaxInt as int32)
  {
    var m := MaxIdOr0(ps);
    if HasId(ps, MaxInt as int32) {
      var i :| 0 <= i < |ps| && ps[i].id as int == MaxInt;
      assert ps[i].id <= m;
    }
  }

  /** Appending a product stamped with the intended new id keeps ids distinct. */
  lemma NewIdKeepsDistinct(ps: seq<Product>, p: Product)
    requires DistinctIds(ps) && NewId(ps).Some?
    ensures DistinctIds(ps + [p.(id := NewId(ps).value)])
  {
    NewIdFresh(ps);
  }

  /** Where the intended id exists, the source's arithmetic produces it. */
  lemma NewIdAsWrittenAgrees(ps: seq<Product>)
    requires NewId(ps).Some?
    ensures NewIdAsWritten(ps) == NewId(ps).value
  {
  }

  /** With ids `MinInt` and `MaxInt` on file, the source's `max + 1` wraps to
      `MinInt` and hands out an id that is already taken. */
  lemma NewIdAsWrittenCollides(a: Product, b: Product)
    requires a.id as int == MinInt && b.id as int == MaxInt
    ensures NewIdAsWritten([a, b]) == a.id
    ensures !DistinctIds([a, b] + [b.(id := NewIdAsWritten([a, b]))])
  {
    var ps := [a, b];
    assert MaxIdOr0(ps) == b.id by {
      assert ps[1] == b;
    }
    var q := b.(id := NewIdAsWritten(ps));
    assert (ps + [q])[0].id == (ps + [q])[2].id;
  }

  // ---- the in-place list edits, as loops ----------------------------------

  /** The indexed loop of `updateProduct`: scan for the first entry with
      `p`'s id, `set` it to `p`, `break`. */
  method SetFirstMatch(ps: seq<Product>, p: Product) returns (r: seq<Product>)
    ensures r == ReplaceFirst(ps, p)
  {
    r := ps;
    var i := 0;
    while i < |r|
      invariant 0 <= i <= |r| == |ps|
      invariant r == ps
      invariant forall j :: 0 <= j < i ==> ps[j].id != p.id
    {
      if r[i].id == p.id {
        r := r[i := p];
        break;
      }
      i := i + 1;
    }
  }

  /** `removeIf(q -> q.getId() == id)`: one pass keeping the entries whose id differs. */
  method RemoveIf(ps: seq<Product>, id: int32) returns (r: seq<Product>)
    ensures r == RemoveId(ps, id)
  {
    r := [];
    var i := 0;
    while i < |ps|
      invariant 0 <= i <= |ps|
      invariant r == RemoveId(ps[..i], id)
    {
      assert ps[..i + 1] == ps[..i] + [ps[i]];
      RemoveIdConcat(ps[..i], [ps[i]], id);
      if ps[i].id != id {
        r := r + [ps[i]];
      }
      i := i + 1;
    }
    assert ps[..i] == ps;
  }
}
