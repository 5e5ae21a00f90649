/**
 * The payment record shared by the client table and the server actions, the
 * four status values the client's status select offers, and the list
 * operation both sides use to remove records by id.
 */
module Payments {

  /** The status union of the client's `Payment` interface and of its select. */
  datatype Status = Pending | Processing | Success | Failed

  /** The four statuses in the order the select lists them. */
  const AllStatuses: seq<Status> := [Pending, Processing, Success, Failed]

  /** The string value each status carries at run time. */
  function StatusName(st: Status): (name: string)
    ensures |name| > 0
  {
    match st
    case Pending => "pending"
    case Processing => "processing"
    case Success => "success"
    case Failed => "failed"
  }

  lemma {:induction false} StatusNameInjective(a: Status, b: Status)
    ensures StatusName(a) == StatusName(b) <==> a == b
  {
  }

  /**
   * A payment record. `status` is the run-time string (the TypeScript union
   * is erased); `amount` is the decimal text the amount is parsed from.
   */
  datatype Payment = Payment(id: string, amount: string, status: string, email: string)

  /** The list with every record whose id equals `id` removed, in order. */
  function WithoutId(ps: seq<Payment>, id: string): (r: seq<Payment>)
    ensures |r| <= |ps|
  {
    if ps == [] then []
    else if ps[0].id == id then WithoutId(ps[1..], id)
    else [ps[0]] + WithoutId(ps[1..], id)
  }

  /** A record survives the removal exactly when it was present and carries another id. */
  lemma {:induction false} WithoutIdMembers(ps: seq<Payment>, id: string, p: Payment)
    ensures p in WithoutId(ps, id) <==> p in ps && p.id != id
  {
    if ps != [] {
      WithoutIdMembers(ps[1..], id, p);
      assert ps == [ps[0]] + ps[1..];
    }
  }

  /** After removal no record carries the removed id. */
  lemma {:induction false} WithoutIdRemovesAll(ps: seq<Payment>, id: string)
    ensures forall p :: p in WithoutId(ps, id) ==> p.id != id
  {
    forall p | p in WithoutId(ps, id) ensures p.id != id {
      WithoutIdMembers(ps, id, p);
    }
  }

  /** The number of records in `ps` whose id equals `id`. */
  function CountId(ps: seq<Payment>, id: string): nat
  {
    if ps == [] then 0
    else (if ps[0].id == id then 1 else 0) + CountId(ps[1..], id)
  }

  /** No two records in `ps` share an id. */
  predicate UniqueIds(ps: seq<Payment>)
  {
    forall i, j :: 0 <= i < j < |ps| ==> ps[i].id != ps[j].id
  }

  /** Where the record at index `i` lands once the records with `id` are removed. */
  function KeptIndex(ps: seq<Payment>, id: string, i: nat): nat
    requires i <= |ps|
  {
    |WithoutId(ps[..i], id)|
  }

  lemma {:induction false} WithoutIdConcat(a: seq<Payment>, b: seq<Payment>, id: string)
    ensures WithoutId(a + b, id) == WithoutId(a, id) + WithoutId(b, id)
  {
    if a == [] {
      assert a + b == b;
    } else {
      assert (a + b)[0] == a[0];
      assert (a + b)[1..] == a[1..] + b;
      WithoutIdConcat(a[1..], b, id);
    }
  }

  /** Removing an id no record carries changes nothing. */
  lemma {:induction false} WithoutAbsentId(ps: seq<Payment>, id: string)
    requires forall p :: p in ps ==> p.id != id
    ensures WithoutId(ps, id) == ps
  {
    if ps != [] {
      WithoutAbsentId(ps[1..], id);
    }
  }

  /** Removing by id twice is removing it once. */
  lemma {:induction false} WithoutIdIdempotent(ps: seq<Payment>, id: string)
    ensures WithoutId(WithoutId(ps, id), id) == WithoutId(ps, id)
  {
    WithoutIdRemovesAll(ps, id);
    WithoutAbsentId(WithoutId(ps, id), id);
  }

  /** The list shrinks by exactly the number of records that carried the id. */
  lemma {:induction false} WithoutIdLength(ps: seq<Payment>, id: string)
    ensures |WithoutId(ps, id)| == |ps| - CountId(ps, id)
  {
    if ps != [] {
      WithoutIdLength(ps[1..], id);
    }
  }

  lemma {:induction false} CountAbsentId(ps: seq<Payment>, id: string)
    requires forall p :: p in ps ==> p.id != id
    ensures CountId(ps, id) == 0
  {
    if ps != [] {
      CountAbsentId(ps[1..], id);
    }
  }

  /** With unique ids, no record other than the one at `k` carries its id. */
  lemma {:induction false} UniqueElsewhere(ps: seq<Payment>, k: nat)
    requires UniqueIds(ps) && k < |ps|
    ensures forall p :: p in ps[..k] ==> p.id != ps[k].id
    ensures forall p :: p in ps[k+1..] ==> p.id != ps[k].id
  {
    forall p | p in ps[..k] ensures p.id != ps[k].id {
      var j :| 0 <= j < k && ps[..k][j] == p;
      assert ps[j] == p;
    }
    forall p | p in ps[k+1..] ensures p.id != ps[k].id {
      var j :| 0 <= j < |ps[k+1..]| && ps[k+1..][j] == p;
      assert ps[k + 1 + j] == p;
    }
  }

  /** With unique ids, deleting the id of a present record removes exactly one record. */
  lemma {:induction false} UniqueDeleteRemovesOne(ps: seq<Payment>, k: nat)
    requires UniqueIds(ps) && k < |ps|
    ensures |WithoutId(ps, ps[k].id)| == |ps| - 1
  {
    UniqueElsewhere(ps, k);
    CountAbsentId(ps[..k], ps[k].id);
    CountAbsentId(ps[k+1..], ps[k].id);
    CountSplit(ps, k, ps[k].id);
    WithoutIdLength(ps, ps[k].id);
  }

  lemma {:induction false} CountSplit(ps: seq<Payment>, k: nat, id: string)
    requires k < |ps|
    ensures CountId(ps, id) == CountId(ps[..k], id) + (if ps[k].id == id then 1 else 0) + CountId(ps[k+1..], id)
  {
    if k > 0 {
      CountSplit(ps[1..], k - 1, id);
      assert ps[1..][..k-1] == ps[..k][1..];
      assert ps[1..][k-1] == ps[k];
      assert ps[1..][k..] == ps[k+1..];
    } else {
      assert ps[1..] == ps[k+1..];
    }
  }

  /**
   * Removing records by id keeps every other record, in its original
   * relative order: a kept record lands at its kept index, and kept
   * indices grow with the original indices.
   */
  lemma {:induction false} WithoutIdKeepsOrder(ps: seq<Payment>, id: string, i: nat, j: nat)
    requires i < j < |ps| && ps[i].id != id && ps[j].id != id
    ensures KeptIndex(ps, id, i) < KeptIndex(ps, id, j) < |WithoutId(ps, id)|
    ensures WithoutId(ps, id)[KeptIndex(ps, id, i)] == ps[i]
    ensures WithoutId(ps, id)[KeptIndex(ps, id, j)] == ps[j]
  {
    KeptAt(ps, id, i);
    KeptAt(ps, id, j);
    assert ps[..j] == ps[..i] + ps[i..j];
    WithoutIdConcat(ps[..i], ps[i..j], id);
    assert ps[i..j] == [ps[i]] + ps[i+1..j];
  }

  /** A kept record sits at its kept index in the filtered list. */
  lemma {:induction false} KeptAt(ps: seq<Payment>, id: string, i: nat)
    requires i < |ps| && ps[i].id != id
    ensures KeptIndex(ps, id, i) < |WithoutId(ps, id)|
    ensures WithoutId(ps, id)[KeptIndex(ps, id, i)] == ps[i]
  {
    assert ps == ps[..i] + ps[i..];
    WithoutIdConcat(ps[..i], ps[i..], id);
    assert ps[i..][1..] == ps[i+1..];
  }

  /**
   * Deleting a record by its id and appending it again, as the client's
   * undo does when nothing happened in between, moves it to the end: the
   * same records, but the record no longer at its original position.
   */
  lemma {:induction false} DeleteThenUndo(ps: seq<Payment>, k: nat)
    requires UniqueIds(ps) && k < |ps|
    ensures WithoutId(ps, ps[k].id) + [ps[k]] == ps[..k] + ps[k+1..] + [ps[k]]
    ensures multiset(WithoutId(ps, ps[k].id) + [ps[k]]) == multiset(ps)
  {
    var x, before, after := ps[k], ps[..k], ps[k+1..];
    UniqueElsewhere(ps, k);
    DeleteAt(ps, k);
    var w := WithoutId(ps, x.id);
    assert w + [x] == before + after + [x];
    assert ps == before + [x] + after;
    calc {
      multiset(w + [x]);
      multiset(before + after + [x]);
      multiset(before) + multiset(after) + multiset([x]);
      multiset(before) + multiset([x]) + multiset(after);
      multiset(before + [x] + after);
      multiset(ps);
    }
  }

  /** Deleting the id of the record at `k`, when no other record carries it. */
  lemma {:induction false} DeleteAt(ps: seq<Payment>, k: nat)
    requires k < |ps|
    requires forall p :: p in ps[..k] ==> p.id != ps[k].id
    requires forall p :: p in ps[k+1..] ==> p.id != ps[k].id
    ensures WithoutId(ps, ps[k].id) == ps[..k] + ps[k+1..]
  {
    var id, before, after := ps[k].id, ps[..k], ps[k+1..];
    var rest := [ps[k]] + after;
    assert ps == before + rest;
    WithoutIdConcat(before, rest, id);
    assert WithoutId(rest, id) == WithoutId(after, id) by {
      assert rest[0] == ps[k];
      assert rest[1..] == after;
    }
    WithoutAbsentId(before, id);
    WithoutAbsentId(after, id);
    calc {
      WithoutId(ps, id);
      WithoutId(before + rest, id);
      WithoutId(before, id) + WithoutId(rest, id);
      before + after;
    }
  }

  /** The undone record's original position is not restored. */
  lemma UndoMovesToEnd()
    ensures var a := Payment("A1", "100", "pending", "a@b.com");
            var b := Payment("B2", "5.5", "failed", "c@d");
            WithoutId([a, b], a.id) + [a] == [b, a] != [a, b]
  {
  }
}
