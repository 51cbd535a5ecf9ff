/** Ledger account names. The ledger table is keyed by name; the rest of the model keys it by
    `Account`, which NameInjective justifies. */
module Accounts {

  datatype Account =
    | PspClearing(psp: string)
    | MerchantAvailable(merchant: string)
    | MerchantInTransit(merchant: string)
    | MerchantSettled(merchant: string)
    | PlatformFees
    | PlatformOperating

  /** What follows the merchant identifier in each template. */
  function Suffix(a: Account): string {
    match a
    case MerchantAvailable(_) => ":available"
    case MerchantInTransit(_) => ":in_transit"
    case MerchantSettled(_) => ":settled"
    case _ => ""
  }

  function Template(a: Account): string {
    "merchant:" + "%s" + Suffix(a)
  }

  /** Every placeholder replaced, left to right; what replaces one is not scanned again. */
  function Format(tmpl: string, id: string): string {
    if |tmpl| == 0 then ""
    else if |tmpl| >= 2 && tmpl[0] == '%' && tmpl[1] == 's' then id + Format(tmpl[2..], id)
    else [tmpl[0]] + Format(tmpl[1..], id)
  }

  function Placeholders(tmpl: string): nat {
    if |tmpl| < 2 then 0
    else if tmpl[0] == '%' && tmpl[1] == 's' then 1 + Placeholders(tmpl[2..])
    else Placeholders(tmpl[1..])
  }

  /** The formatter. It reserves |tmpl| + |id| - 2 bytes, so a shorter input would panic. */
  method FormatAccount(tmpl: string, id: string) returns (buf: string)
    requires |tmpl| + |id| >= 2
    ensures buf == Format(tmpl, id)
    ensures Placeholders(tmpl) == 1 ==> |buf| == |tmpl| + |id| - 2
  {
    buf := "";
    var i := 0;
    while i < |tmpl|
      invariant 0 <= i <= |tmpl|
      invariant buf + Format(tmpl[i..], id) == Format(tmpl, id)
    {
      if tmpl[i] == '%' && i + 1 < |tmpl| && tmpl[i + 1] == 's' {
        assert tmpl[i..][2..] == tmpl[i + 2..];
        buf := buf + id;
        i := i + 1;
      } else {
        assert tmpl[i..][1..] == tmpl[i + 1..];
        buf := buf + [tmpl[i]];
      }
      i := i + 1;
    }
    FormatLength(tmpl, id);
  }

  lemma {:induction false} FormatLength(tmpl: string, id: string)
    ensures |Format(tmpl, id)| == |tmpl| + Placeholders(tmpl) * (|id| - 2)
  {
    if |tmpl| >= 2 && tmpl[0] == '%' && tmpl[1] == 's' {
      FormatLength(tmpl[2..], id);
    } else if |tmpl| > 0 {
      FormatLength(tmpl[1..], id);
    }
  }

  /** Text without a percent sign is copied. */
  lemma {:induction false} FormatPlain(text: string, id: string)
    requires '%' !in text
    ensures Format(text, id) == text
  {
    if |text| == 0 {
    } else {
      FormatPlain(text[1..], id);
    }
  }

  lemma FormatChar(c: char, rest: string, id: string)
    requires c != '%'
    ensures Format([c] + rest, id) == [c] + Format(rest, id)
  {
    assert ([c] + rest)[1..] == rest;
  }

  predicate IsPlaceholder(hole: string) {
    |hole| == 2 && hole[0] == '%' && hole[1] == 's'
  }

  lemma FormatHole(hole: string, rest: string, id: string)
    requires IsPlaceholder(hole)
    ensures Format(hole + rest, id) == id + Format(rest, id)
  {
    assert (hole + rest)[2..] == rest;
  }

  lemma {:induction false} FormatAround(prefix: string, hole: string, suffix: string, id: string)
    requires '%' !in prefix && '%' !in suffix && IsPlaceholder(hole)
    ensures Format(prefix + hole + suffix, id) == prefix + id + suffix
  {
    if |prefix| == 0 {
      FormatHole(hole, suffix, id);
      FormatPlain(suffix, id);
      assert prefix + hole + suffix == hole + suffix;
    } else {
      var c, tail := prefix[0], prefix[1..];
      FormatAround(tail, hole, suffix, id);
      FormatChar(c, tail + hole + suffix, id);
      assert prefix + hole + suffix == [c] + (tail + hole + suffix);
      assert [c] + (tail + id + suffix) == prefix + id + suffix;
    }
  }

  /** A template with one placeholder becomes prefix, identifier, suffix, whatever the identifier
      contains. */
  lemma FormatSplit(prefix: string, suffix: string, id: string)
    requires '%' !in prefix && '%' !in suffix
    ensures Format(prefix + "%s" + suffix, id) == prefix + id + suffix
  {
    FormatAround(prefix, "%s", suffix, id);
  }

  function PspClearingAccount(psp: string): string {
    match psp
    case "mpesa" => "psp_clearing:mpesa"
    case "paystack" => "psp_clearing:paystack"
    case _ => "psp_clearing:" + psp
  }

  function Name(a: Account): string {
    match a
    case PspClearing(psp) => PspClearingAccount(psp)
    case MerchantAvailable(m) => Format(Template(a), m)
    case MerchantInTransit(m) => Format(Template(a), m)
    case MerchantSettled(m) => Format(Template(a), m)
    case PlatformFees => "platform:fees"
    case PlatformOperating => "platform:operating"
  }

  lemma MerchantName(a: Account, m: string)
    requires a == MerchantAvailable(m) || a == MerchantInTransit(m) || a == MerchantSettled(m)
    ensures Name(a) == "merchant:" + m + Suffix(a)
  {
    FormatSplit("merchant:", Suffix(a), m);
  }

  /** The names as the database has them. */
  lemma NamesWritten(m: string, psp: string)
    ensures Name(MerchantAvailable(m)) == "merchant:" + m + ":available"
    ensures Name(MerchantInTransit(m)) == "merchant:" + m + ":in_transit"
    ensures Name(MerchantSettled(m)) == "merchant:" + m + ":settled"
    ensures Name(PspClearing(psp)) == "psp_clearing:" + psp
    ensures Name(PlatformFees) == "platform:fees" && Name(PlatformOperating) == "platform:operating"
  {
    MerchantName(MerchantAvailable(m), m);
    MerchantName(MerchantInTransit(m), m);
    MerchantName(MerchantSettled(m), m);
    NameKind(PspClearing(psp));
  }

  lemma Wrapped(prefix: string, suffix: string, x: string, y: string)
    requires prefix + x + suffix == prefix + y + suffix
    ensures x == y
  {
    assert |x| == |y|;
    assert x == (prefix + x + suffix)[|prefix|..|prefix| + |x|];
    assert y == (prefix + y + suffix)[|prefix|..|prefix| + |y|];
  }

  /** The last character tells the merchant accounts apart, the first two the other families. */
  function Kind(name: string): (char, char, char)
    requires |name| >= 2
  {
    (name[0], name[1], name[|name| - 1])
  }

  lemma NameKind(a: Account)
    ensures |Name(a)| >= 2
    ensures a.MerchantAvailable? ==> Kind(Name(a)) == ('m', 'e', 'e')
    ensures a.MerchantInTransit? ==> Kind(Name(a)) == ('m', 'e', 't')
    ensures a.MerchantSettled? ==> Kind(Name(a)) == ('m', 'e', 'd')
    ensures a.PspClearing? ==> Name(a) == "psp_clearing:" + a.psp && Name(a)[..2] == "ps"
    ensures a.PlatformFees? ==> Kind(Name(a)) == ('p', 'l', 's')
    ensures a.PlatformOperating? ==> Kind(Name(a)) == ('p', 'l', 'g')
  {
    match a
    case PspClearing(psp) =>
      assert "psp_clearing:mpesa" == "psp_clearing:" + "mpesa";
      assert "psp_clearing:paystack" == "psp_clearing:" + "paystack";
    case MerchantAvailable(m) => MerchantName(a, m);
    case MerchantInTransit(m) => MerchantName(a, m);
    case MerchantSettled(m) => MerchantName(a, m);
    case PlatformFees =>
    case PlatformOperating =>
  }

  /** Two accounts share a name only when they are the same account: names are injective in the
      merchant and provider identifiers and the families never collide. */
  lemma NameInjective(a: Account, b: Account)
    ensures Name(a) == Name(b) <==> a == b
  {
    if Name(a) == Name(b) {
      NameKind(a);
      NameKind(b);
      match (a, b)
      case (PspClearing(p), PspClearing(q)) =>
        assert p == Name(a)[13..] && q == Name(b)[13..];
      case (MerchantAvailable(m), MerchantAvailable(n)) =>
        MerchantName(a, m);
        MerchantName(b, n);
        Wrapped("merchant:", ":available", m, n);
      case (MerchantInTransit(m), MerchantInTransit(n)) =>
        MerchantName(a, m);
        MerchantName(b, n);
        Wrapped("merchant:", ":in_transit", m, n);
      case (MerchantSettled(m), MerchantSettled(n)) =>
        MerchantName(a, m);
        MerchantName(b, n);
        Wrapped("merchant:", ":settled", m, n);
      case _ =>
    }
  }
}
