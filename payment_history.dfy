/**
  The HR's payment history: every payment is listed, and a row is marked active when it
  is a payment for the HR's current package made no earlier than that package's activation.
*/
module PaymentHistory {
  import opened Common

  /** The HR's current package as the profile holds it; dates are instants on one clock. */
  datatype UserPackage = UserPackage(name: Option<string>, activatedAt: Option<int>)

  /** A recorded payment. */
  datatype Payment = Payment(packageName: Option<string>, paymentDate: int)

  /** `userInfo?.package?.name`. */
  function PackageName(userPackage: Option<UserPackage>): Option<string>
  {
    if userPackage.None? then None else userPackage.value.name
  }

  /**
    `isActivePackage`: the names are strictly equal (two missing names are equal), the
    package has an activation date, and that date is not after the payment.
  */
  predicate IsActivePayment(userPackage: Option<UserPackage>, pay: Payment)
  {
    && PackageName(userPackage) == pay.packageName
    && userPackage.Some? && userPackage.value.activatedAt.Some?
    && userPackage.value.activatedAt.value <= pay.paymentDate
  }

  /** The rows marked active, in list order. */
  function ActiveRows(userPackage: Option<UserPackage>, payments: seq<Payment>): (active: seq<Payment>)
    ensures forall p :: p in active <==> p in payments && IsActivePayment(userPackage, p)
    ensures forall p :: p in payments ==> multiset(active)[p] == if IsActivePayment(userPackage, p) then multiset(payments)[p] else 0
  {
    Filter((p: Payment) => IsActivePayment(userPackage, p), payments)
  }

  /**
    Every active row is a payment for the HR's package, made at or after its activation;
    an HR with no package, or a package never activated, has no active row.
  */
  lemma ActiveRowsMatchThePackage(userPackage: Option<UserPackage>, payments: seq<Payment>)
    ensures forall p :: p in ActiveRows(userPackage, payments) ==>
              userPackage.Some? && p.packageName == userPackage.value.name
              && userPackage.value.activatedAt.Some? && userPackage.value.activatedAt.value <= p.paymentDate
    ensures userPackage.None? || userPackage.value.activatedAt.None? ==> ActiveRows(userPackage, payments) == []
  {
  }

  /**
    The mark is not exclusive: two payments for the current package, both made after its
    activation (a renewal, say), are both marked active.
  */
  lemma TwoRowsCanBeActive()
    ensures var current := Some(UserPackage(Some("Standard"), Some(100)));
            var payments := [Payment(Some("Standard"), 100), Payment(Some("Standard"), 200)];
            |ActiveRows(current, payments)| == 2
  {
    var current := Some(UserPackage(Some("Standard"), Some(100)));
    var payments := [Payment(Some("Standard"), 100), Payment(Some("Standard"), 200)];
    var active := ActiveRows(current, payments);
    assert active == payments;
  }

  /** "No payment history yet." is shown exactly when there is no payment to list. */
  function ShowsEmptyMessage(payments: seq<Payment>): (shown: bool)
    ensures shown <==> forall p :: p !in payments
  {
    if |payments| == 0 then true
    else
      assert payments[0] in payments;
      false
  }

  /**
    The empty message and the active mark exclude each other: with the message shown no row
    is active, and a page with an active row does not show the message.
  */
  lemma EmptyMessageExcludesActiveMark(userPackage: Option<UserPackage>, payments: seq<Payment>)
    ensures ShowsEmptyMessage(payments) ==> ActiveRows(userPackage, payments) == []
    ensures ActiveRows(userPackage, payments) != [] ==> !ShowsEmptyMessage(payments)
  {
  }
}
