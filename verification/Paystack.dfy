/** Paystack amounts: some currencies travel in hundredths, in int64 arithmetic. */
module Paystack {
  import opened Int64
  import opened Fees

  predicate CentsCurrency(currency: string) {
    currency != "KES" && currency != "UGX" && currency != "TZS" && currency != "RWF"
  }

  function ToPaystackAmount(amount: int, currency: string): int {
    if CentsCurrency(currency) then Wrap(amount * 100) else amount
  }

  function FromPaystackAmount(amount: int, currency: string): int {
    if CentsCurrency(currency) then TruncDiv(amount, 100) else amount
  }

  /** An amount survives the trip to Paystack and back exactly when a hundredfold of it still fits
      an int64, or the currency is not sent in hundredths. */
  lemma RoundTripIff(amount: int, currency: string)
    requires Fits(amount)
    ensures FromPaystackAmount(ToPaystackAmount(amount, currency), currency) == amount
            <==> !CentsCurrency(currency) || Fits(amount * 100)
  {
    if CentsCurrency(currency) {
      var w := Wrap(amount * 100);
      assert -TWO63 <= w < TWO63;
      assert !Fits(amount * 100) ==> amount > 92233720368547758 || amount < -92233720368547758;
      assert -92233720368547758 <= TruncDiv(w, 100) <= 92233720368547758;
    }
  }

  /** The other way round the remainder below one unit is lost, and nothing else. */
  lemma BackAndForth(minor: int, currency: string)
    requires Fits(minor) && minor >= 0
    ensures var back := ToPaystackAmount(FromPaystackAmount(minor, currency), currency);
            0 <= minor - back <= 99 && (back == minor <==> !CentsCurrency(currency) || minor % 100 == 0)
  {
  }

  /** Four currencies travel as they are, all others in hundredths. */
  lemma SentAs(amount: int, currency: string)
    requires Fits(amount * 100)
    ensures ToPaystackAmount(amount, currency) ==
            if currency in {"KES", "UGX", "TZS", "RWF"} then amount else 100 * amount
    ensures CentsCurrency(currency) <==> currency !in {"KES", "UGX", "TZS", "RWF"}
  {
  }

  datatype StatusResult = StatusResult(supported: bool, status: string, amount: int, currency: string)

  /** What the verify call's answer stands for. */
  function StatusOf(ok: bool, status: string, amount: int, currency: string): StatusResult {
    StatusResult(
      true, if ok && status == "success" then "succeeded" else "failed", FromPaystackAmount(amount, currency), currency)
  }

  /** The verify call's answer read as a status. */
  method GetStatus(ok: bool, status: string, amount: int, currency: string) returns (r: StatusResult)
    ensures r == StatusOf(ok, status, amount, currency)
    ensures r.supported && r.currency == currency
    ensures r.status == if ok && status == "success" then "succeeded" else "failed"
    ensures currency in {"KES", "UGX", "TZS", "RWF"} ==> r.amount == amount
    ensures currency !in {"KES", "UGX", "TZS", "RWF"} ==>
              -100 < amount - 100 * r.amount < 100 && (amount >= 0 ==> 0 <= 100 * r.amount <= amount)
  {
    var s := "succeeded";
    if !ok || status != "success" {
      s := "failed";
    }
    var a := amount;
    if CentsCurrency(currency) {
      a := TruncDiv(a, 100);
    }
    return StatusResult(true, s, a, currency);
  }

  /** An amount the risk check admits always survives the trip. */
  lemma AdmittedSurvives(amount: int, currency: string)
    requires Admitted(amount)
    ensures Fits(amount * 100)
    ensures FromPaystackAmount(ToPaystackAmount(amount, currency), currency) == amount
  {
    RoundTripIff(amount, currency);
  }
}
