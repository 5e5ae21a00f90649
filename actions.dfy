/**
 * The server actions over the payment table: listing, a create guarded by
 * the status enumeration, and delete. The table is a sequence of rows.
 */
module Actions {
  import opened Wrappers
  import opened Payments

  /** The allowed statuses, in declaration order. */
  const ValidStatuses: seq<string> := ["pending", "processing", "success", "failed"]

  /** Exact, case-sensitive membership in the allowed statuses. */
  predicate IsValidStatus(s: string): (ok: bool)
    ensures ok <==> s == "pending" || s == "processing" || s == "success" || s == "failed"
  {
    s in ValidStatuses
  }

  /** The server's list and the client's four status values are the same, in the same order. */
  lemma {:induction false} ValidStatusesAreStatusNames(s: string)
    ensures |ValidStatuses| == |AllStatuses|
    ensures forall i :: 0 <= i < |ValidStatuses| ==> ValidStatuses[i] == StatusName(AllStatuses[i])
    ensures IsValidStatus(s) <==> exists st :: StatusName(st) == s
  {
    if IsValidStatus(s) {
      var i :| 0 <= i < |ValidStatuses| && ValidStatuses[i] == s;
      assert StatusName(AllStatuses[i]) == s;
    }
  }

  /** Neither case nor surrounding spaces are forgiven. */
  lemma StatusCheckIsExact()
    ensures !IsValidStatus("Pending") && !IsValidStatus(" pending") && !IsValidStatus("done")
    ensures !IsValidStatus("")
  {
    assert "Pending"[0] != "pending"[0];
  }

  /** The elements of `xs` separated by `sep`. */
  function Join(xs: seq<string>, sep: string): string
  {
    if xs == [] then ""
    else if |xs| == 1 then xs[0]
    else xs[0] + sep + Join(xs[1..], sep)
  }

  const InvalidPrefix: string := "Status tidak valid: "
  const AllowedIntro: string := ". Harus salah satu dari "

  /** The allowed values as the message lists them. */
  function AllowedTail(): string
  {
    AllowedIntro + Join(ValidStatuses, ", ")
  }

  /** The message of the error thrown for a rejected status. */
  function InvalidStatusMessage(status: string): (m: string)
    ensures |m| > |InvalidPrefix| + |status|
    ensures m[..|InvalidPrefix|] == InvalidPrefix
    ensures m[|InvalidPrefix|..|InvalidPrefix| + |status|] == status
  {
    InvalidPrefix + (status + AllowedTail())
  }

  /** The allowed values joined by ", " in declaration order. */
  lemma JoinedStatuses()
    ensures Join(ValidStatuses, ", ") == "pending" + ", " + ("processing" + ", " + ("success" + ", " + "failed"))
  {
    var xs := ValidStatuses;
    assert xs[1..] == ["processing", "success", "failed"];
    assert xs[1..][1..] == ["success", "failed"];
    assert xs[1..][1..][1..] == ["failed"];
    calc {
      Join(xs, ", ");
      xs[0] + ", " + Join(xs[1..], ", ");
      "pending" + ", " + ("processing" + ", " + Join(xs[1..][1..], ", "));
      "pending" + ", " + ("processing" + ", " + ("success" + ", " + Join(xs[1..][1..][1..], ", ")));
      "pending" + ", " + ("processing" + ", " + ("success" + ", " + "failed"));
    }
  }

  /** The message names the rejected value, then the allowed values joined by ", " in declaration order. */
  lemma {:induction false} InvalidStatusMessageText(status: string)
    ensures InvalidStatusMessage(status)
      == "Status tidak valid: " + (status + (". Harus salah satu dari " + ("pending" + ", " + ("processing" + ", " + ("success" + ", " + "failed")))))
  {
    JoinedStatuses();
  }

  /** Different rejected values give different messages: the value can be read back from the message. */
  lemma {:induction false} InvalidStatusMessageInjective(a: string, b: string)
    ensures InvalidStatusMessage(a) == InvalidStatusMessage(b) <==> a == b
  {
    if InvalidStatusMessage(a) == InvalidStatusMessage(b) {
      SameFrame(InvalidPrefix, a, b, AllowedTail());
    }
  }

  /** Text framed by the same prefix and suffix is determined by the whole. */
  lemma {:induction false} SameFrame(prefix: string, a: string, b: string, suffix: string)
    requires prefix + (a + suffix) == prefix + (b + suffix)
    ensures a == b
  {
    var m := prefix + (a + suffix);
    assert |a| == |b|;
    assert a == m[|prefix|..|prefix| + |a|];
    assert b == (prefix + (b + suffix))[|prefix|..|prefix| + |b|];
  }

  /** The payment table behind the ORM: its rows in store order. */
  class PaymentStore {
    var rows: seq<Payment>

    /** Every stored status is one of the allowed values. */
    ghost predicate Valid()
      reads this
    {
      forall r :: r in rows ==> IsValidStatus(r.status)
    }

    constructor (initial: seq<Payment>)
      ensures rows == initial
    {
      rows := initial;
    }

    /**
     * Lists every row, one record per row in store order with every field
     * unchanged; the status is only re-typed, which the store invariant justifies.
     */
    method GetPayments() returns (ps: seq<Payment>)
      ensures |ps| == |rows|
      ensures forall i :: 0 <= i < |ps| ==> ps[i] == rows[i]
      ensures Valid() ==> forall i :: 0 <= i < |ps| ==> IsValidStatus(ps[i].status)
    {
      ps := rows;
    }

    /**
     * Creates a payment: an invalid status fails with the message naming it
     * and nothing is written; a valid one writes the record exactly as given
     * and returns it.
     */
    method CreatePayment(d: Payment) returns (r: Result<Payment, string>)
      modifies this
      ensures !IsValidStatus(d.status) ==> r == Err(InvalidStatusMessage(d.status)) && rows == old(rows)
      ensures IsValidStatus(d.status) ==> r == Ok(d) && rows == old(rows) + [d]
      ensures old(Valid()) ==> Valid()
    {
      if !IsValidStatus(d.status) {
        return Err(InvalidStatusMessage(d.status));
      }
      rows := rows + [d];
      r := Ok(d);
    }

    /** Deletes the row with the given id. */
    method DeletePayment(id: string)
      modifies this
      ensures rows == WithoutId(old(rows), id)
      ensures forall p :: p in rows ==> p.id != id
      ensures old(Valid()) ==> Valid()
    {
      WithoutIdRemovesAll(rows, id);
      forall p | p in WithoutId(rows, id) ensures p in rows {
        WithoutIdMembers(rows, id, p);
      }
      rows := WithoutId(rows, id);
    }
  }

  /** Deleting a just-created row's id gives back the rows before the create, when that id was new. */
  lemma {:induction false} DeleteUndoesCreate(rows: seq<Payment>, d: Payment)
    requires forall p :: p in rows ==> p.id != d.id
    ensures WithoutId(rows + [d], d.id) == rows
  {
    WithoutIdConcat(rows, [d], d.id);
    WithoutAbsentId(rows, d.id);
    assert WithoutId([d], d.id) == [];
  }
}
