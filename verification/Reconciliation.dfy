/** Reconciling one provider's local attempts with what the provider reports. */
module Reconciliation {
  import opened Int64
  import opened Sums
  import opened Fees
  import opened Paystack

  datatype AttemptRow = AttemptRow(psp: string, ref: string, status: string, amount: int)

  /** The provider's answer for a row, if it is asked: an error or a status. */
  datatype Answer = Error | Answer(result: StatusResult)

  datatype Verdict = Foreign | Matched | Unmatched | Errored

  /** Whether the answer contradicts the row. */
  predicate Contradicts(row: AttemptRow, r: StatusResult) {
    r.supported && ((row.status == "succeeded" && r.status != "succeeded") || (r.amount > 0 && r.amount != row.amount))
  }

  function VerdictOf(row: AttemptRow, name: string, capable: bool, a: Answer): Verdict {
    if row.psp != name then Foreign
    else if row.ref == "" then Unmatched
    else if !capable then Matched
    else match a
      case Error => Errored
      case Answer(r) => if Contradicts(row, r) then Unmatched else Matched
  }

  /** The verdicts on the fields: a row of another provider is not looked at; one without a reference
      is unmatched; one that is not asked, or about which the provider knows nothing, is matched; an
      error is an error; a local success without a remote one, or another positive amount, is
      unmatched. */
  lemma VerdictMeans(row: AttemptRow, name: string, capable: bool, a: Answer)
    ensures var v := VerdictOf(row, name, capable, a);
            var asked := row.psp == name && row.ref != "" && capable;
            var differs := asked && a.Answer? && a.result.supported &&
                           ((row.status == "succeeded" && a.result.status != "succeeded") ||
                            (a.result.amount > 0 && a.result.amount != row.amount));
            (v == Foreign <==> row.psp != name) &&
            (v == Errored <==> asked && a.Error?) &&
            (v == Unmatched <==> (row.psp == name && row.ref == "") || differs) &&
            (v == Matched <==> row.psp == name && row.ref != "" && !(asked && a.Error?) && !differs)
  {
  }

  /** How many of the first n rows the provider was asked about and failed to answer. */
  function ErrorsUpTo(rows: seq<AttemptRow>, answers: seq<Answer>, name: string, capable: bool, n: nat): nat
    requires n <= |rows| == |answers|
  {
    if n == 0 then 0
    else ErrorsUpTo(rows, answers, name, capable, n - 1) +
         if rows[n - 1].psp == name && rows[n - 1].ref != "" && capable && answers[n - 1].Error? then 1 else 0
  }

  lemma {:induction false} ErrorsCounted(
    rows: seq<AttemptRow>,
    answers: seq<Answer>,
    name: string,
    capable: bool,
    n: nat)
    requires n <= |rows| == |answers|
    ensures Sum(Verdicts(rows, answers, name, capable)[..n], Is(Errored)) == ErrorsUpTo(rows, answers, name, capable, n)
  {
    if n == 0 {
    } else {
      ErrorsCounted(rows, answers, name, capable, n - 1);
      SumPrefix(Verdicts(rows, answers, name, capable), n - 1, Is(Errored));
      VerdictMeans(rows[n - 1], name, capable, answers[n - 1]);
    }
  }

  function Is(v: Verdict): Verdict -> int {
    (w: Verdict) => if w == v then 1 else 0
  }

  function Verdicts(rows: seq<AttemptRow>, answers: seq<Answer>, name: string, capable: bool): seq<Verdict>
    requires |answers| == |rows|
  {
    seq(|rows|, i requires 0 <= i < |rows| => VerdictOf(rows[i], name, capable, answers[i]))
  }

  /** Counts the rows by verdict. */
  method ReconcilePSP(rows: seq<AttemptRow>, answers: seq<Answer>, name: string, collects: bool, pays: bool)
    returns (matched: int, unmatched: int, errors: int)
    requires |answers| == |rows|
    ensures var vs := Verdicts(rows, answers, name, collects || pays);
            matched == Sum(vs, Is(Matched)) && unmatched == Sum(vs, Is(Unmatched)) && errors == Sum(vs, Is(Errored))
    ensures errors == ErrorsUpTo(rows, answers, name, collects || pays, |rows|)
  {
    matched, unmatched, errors := 0, 0, 0;
    ghost var vs := Verdicts(rows, answers, name, collects || pays);
    for i := 0 to |rows|
      invariant matched == Sum(vs[..i], Is(Matched)) && unmatched == Sum(vs[..i], Is(Unmatched)) &&
                errors == Sum(vs[..i], Is(Errored))
    {
      SumPrefix(vs, i, Is(Matched));
      SumPrefix(vs, i, Is(Unmatched));
      SumPrefix(vs, i, Is(Errored));
      var att := rows[i];
      if att.psp != name {
        continue;
      }
      if att.ref == "" {
        unmatched := unmatched + 1;
        continue;
      }
      if !collects && !pays {
        matched := matched + 1;
        continue;
      }
      if answers[i].Error? {
        errors := errors + 1;
        continue;
      }
      var r := answers[i].result;
      if !r.supported {
        matched := matched + 1;
        continue;
      }
      if att.status == "succeeded" && r.status != "succeeded" {
        unmatched := unmatched + 1;
        continue;
      }
      if r.amount > 0 && r.amount != att.amount {
        unmatched := unmatched + 1;
        continue;
      }
      matched := matched + 1;
    }
    assert vs[..|rows|] == vs;
    ErrorsCounted(rows, answers, name, collects || pays, |rows|);
  }

  function Of(name: string): AttemptRow -> int {
    (r: AttemptRow) => if r.psp == name then 1 else 0
  }

  /** The three counters partition the provider's rows. */
  lemma {:induction false} CountersPartition(rows: seq<AttemptRow>, answers: seq<Answer>, name: string, capable: bool)
    requires |answers| == |rows|
    ensures var vs := Verdicts(rows, answers, name, capable);
            Sum(vs, Is(Matched)) + Sum(vs, Is(Unmatched)) + Sum(vs, Is(Errored)) == Sum(rows, Of(name))
  {
    if |rows| == 0 {
    } else {
      var n := |rows| - 1;
      CountersPartition(rows[..n], answers[..n], name, capable);
      assert Verdicts(rows, answers, name, capable)[..n] == Verdicts(rows[..n], answers[..n], name, capable);
    }
  }

  /** The provider confirms the row: it can be asked, it answers, and neither the outcome nor a
      reported amount differs. */
  predicate Confirms(row: AttemptRow, capable: bool, a: Answer) {
    row.ref != "" &&
    (capable ==>
       a.Answer? &&
       (a.result.supported ==>
          (row.status == "succeeded" ==> a.result.status == "succeeded") &&
          (a.result.amount > 0 ==> a.result.amount == row.amount)))
  }

  /** The report is clean exactly when the provider confirms every one of its rows: no
      discrepancy is ever counted as matched and no confirmed row as anything else. */
  lemma {:induction false} CleanIff(rows: seq<AttemptRow>, answers: seq<Answer>, name: string, capable: bool)
    requires |answers| == |rows|
    ensures var vs := Verdicts(rows, answers, name, capable);
            Sum(vs, Is(Unmatched)) >= 0 && Sum(vs, Is(Errored)) >= 0 &&
            (Sum(vs, Is(Unmatched)) + Sum(vs, Is(Errored)) == 0 <==>
               forall i :: 0 <= i < |rows| && rows[i].psp == name ==> Confirms(rows[i], capable, answers[i]))
  {
    if |rows| == 0 {
    } else {
      var n := |rows| - 1;
      CleanIff(rows[..n], answers[..n], name, capable);
      assert Verdicts(rows, answers, name, capable)[..n] == Verdicts(rows[..n], answers[..n], name, capable);
      assert forall i :: 0 <= i < n ==> rows[..n][i] == rows[i] && answers[..n][i] == answers[i];
      assert VerdictOf(rows[n], name, capable, answers[n]) in {Unmatched, Errored} <==>
             rows[n].psp == name && !Confirms(rows[n], capable, answers[n]);
    }
  }

  /** A Paystack row whose own amount comes back is unmatched exactly when it succeeded locally and
      the verify call does not report a success, or its hundredfold left int64 and what came back is
      still positive. */
  lemma EchoVerdict(row: AttemptRow, currency: string, ok: bool, status: string)
    requires row.ref != "" && Fits(row.amount)
    ensures var r := StatusOf(ok, status, ToPaystackAmount(row.amount, currency), currency);
            VerdictOf(row, row.psp, true, Answer(r)) in {Matched, Unmatched} &&
            (VerdictOf(row, row.psp, true, Answer(r)) == Unmatched <==>
               (row.status == "succeeded" && !(ok && status == "success")) ||
               (CentsCurrency(currency) && !Fits(row.amount * 100) && r.amount > 0))
  {
    RoundTripIff(row.amount, currency);
  }

  /** An amount the risk check admitted is never what makes an echoed row unmatched. */
  lemma AdmittedEcho(row: AttemptRow, currency: string, ok: bool, status: string)
    requires row.ref != "" && Admitted(row.amount)
    ensures var r := StatusOf(ok, status, ToPaystackAmount(row.amount, currency), currency);
            VerdictOf(row, row.psp, true, Answer(r)) ==
            if row.status == "succeeded" && !(ok && status == "success") then Unmatched else Matched
  {
    AdmittedSurvives(row.amount, currency);
    EchoVerdict(row, currency, ok, status);
  }
}
