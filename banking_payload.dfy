/**
  `generate_banking_data` and `generate_active_loans`, which both banking
  simulators share apart from the phone number. Every `rand` and `sample`
  is a draw the caller makes; `InRange` states the ranges the source draws
  from. Amounts are hundredths, as in every JSON number of the model.
*/
module BankingPayload {
  import opened Wrappers
  import opened Text
  import opened JsonValues
  import opened Records

  /** One simulated loan: `rand(10000..30000)`, the remaining balance, the term `rand(12..60)`, the id suffix and the type. */
  datatype LoanDraw = LoanDraw(amount: int, remaining: int, months: int, loanNumber: nat, typePick: nat)

  /** The picks of one payload; `loans` has one entry per simulated loan. */
  datatype Draws = Draws(
    customerNumber: nat,
    incomeHundredths: int,
    savingsHundredths: int,
    loans: seq<LoanDraw>,
    accountPick: nat,
    phoneNumber: nat,
    now: string,
    year: nat)

  const AccountStatuses: seq<string> := ["verified", "pending", "verified"]
  const LoanTypes: seq<string> := ["personal", "car", "mortgage"]
  const Unknown: string := "Unknown"
  const EmailDomain: string := "@example.com"

  /** The ranges of one loan's picks. */
  predicate LoanInRange(l: LoanDraw)
  {
    10000 <= l.amount <= 30000
    && l.amount * 3 / 10 <= l.remaining <= l.amount * 8 / 10
    && 12 <= l.months <= 60
    && 1000 <= l.loanNumber <= 9999
    && l.typePick < |LoanTypes|
  }

  /** The ranges of a payload's picks, the phone number's range depending on the country. */
  predicate InRange(d: Draws, phoneLow: nat, phoneHigh: nat)
  {
    100000 <= d.customerNumber <= 999999
    && 200000 <= d.incomeHundredths <= 500000
    && 20 <= d.savingsHundredths <= 50
    && |d.loans| <= 2 && (forall i :: 0 <= i < |d.loans| ==> LoanInRange(d.loans[i]))
    && d.accountPick < |AccountStatuses|
    && phoneLow <= d.phoneNumber <= phoneHigh
  }

  // ---------------------------------------------------------------- names

  /** `name_parts.first || "Unknown"`. */
  function FirstName(fullName: string): string
  {
    var parts := Words(fullName);
    if parts == [] then Unknown else parts[0]
  }

  /** `name_parts[1..-1]&.join(" ") || "Unknown"`: empty for a one-word name, "Unknown" only when there are no words. */
  function LastName(fullName: string): string
  {
    var parts := Words(fullName);
    if parts == [] then Unknown else Join(parts[1..], " ")
  }

  /** The first name is always one word: it holds no white space. */
  lemma FirstNameIsWord(fullName: string)
    ensures IsWord(FirstName(fullName))
  {
    var parts := Words(fullName);
    if parts == [] {
      assert FirstName(fullName) == Unknown;
      UnknownIsWord();
    } else {
      assert FirstName(fullName) == parts[0];
    }
  }

  lemma UnknownIsWord()
    ensures IsWord(Unknown)
  {
    assert forall i :: 0 <= i < |Unknown| ==> 'U' <= Unknown[i] <= 'z';
  }

  /**
    Splitting loses only the spacing: the first and last name, joined by a
    space, split back into the words of the full name.
  */
  lemma {:induction false} NameSplitKeepsWords(fullName: string)
    requires Words(fullName) != []
    ensures Words(FirstName(fullName) + " " + LastName(fullName)) == Words(fullName)
  {
    var parts := Words(fullName);
    assert forall k :: 0 <= k < |parts| ==> IsWord(parts[k]);
    if |parts| == 1 {
      assert LastName(fullName) == "";
      WordsOfWordThen(parts[0], " ");
      assert Words(" ") == [];
      assert FirstName(fullName) + " " + LastName(fullName) == parts[0] + " ";
    } else {
      JoinCons(parts, " ");
      assert FirstName(fullName) + " " + LastName(fullName) == Join(parts, " ");
      WordsOfJoin(parts);
    }
  }

  // ---------------------------------------------------------------- contact

  /** `"#{first_name.downcase}.#{last_name.downcase.gsub(' ', '.')}@example.com"`. */
  function Email(first: string, last: string): (r: string)
    ensures EndsWith(r, EmailDomain)
    ensures |r| == |first| + 1 + |last| + |EmailDomain|
  {
    var r := Downcase(first) + "." + ReplaceChar(Downcase(last), ' ', '.') + EmailDomain;
    assert r[|r| - |EmailDomain|..] == EmailDomain;
    r
  }

  /** The address the simulators send holds no space: the first name is one word and the last name's spaces become dots. */
  lemma EmailHasNoSpace(fullName: string)
    ensures forall i :: 0 <= i < |Email(FirstName(fullName), LastName(fullName))| ==>
      Email(FirstName(fullName), LastName(fullName))[i] != ' '
  {
    var first, last := FirstName(fullName), LastName(fullName);
    FirstNameIsWord(fullName);
    var local := Downcase(first);
    assert NoSpace(local) by {
      forall i | 0 <= i < |local| ensures local[i] != ' ' {
        assert !IsAsciiSpace(first[i]);
      }
    }
    var dotted := ReplaceChar(Downcase(last), ' ', '.');
    assert NoSpace(dotted);
    assert NoSpace(".");
    DomainHasNoSpace();
    NoSpaceAppend(local, ".");
    NoSpaceAppend(local + ".", dotted);
    NoSpaceAppend(local + "." + dotted, EmailDomain);
    assert Email(first, last) == local + "." + dotted + EmailDomain;
  }

  predicate NoSpace(s: string)
  {
    forall i :: 0 <= i < |s| ==> s[i] != ' '
  }

  lemma NoSpaceAppend(a: string, b: string)
    requires NoSpace(a) && NoSpace(b)
    ensures NoSpace(a + b)
  {
    forall i | 0 <= i < |a + b| ensures (a + b)[i] != ' ' {
      if i < |a| {
        assert (a + b)[i] == a[i];
      } else {
        assert (a + b)[i] == b[i - |a|];
      }
    }
  }

  lemma DomainHasNoSpace()
    ensures NoSpace(EmailDomain)
  {
    assert forall i :: 0 <= i < |EmailDomain| ==> '.' <= EmailDomain[i] <= 'x';
  }

  /** `"#{prefix}#{rand(low..high)}"`. */
  function Phone(prefix: string, n: nat): (r: string)
    ensures |prefix| < |r| && r[..|prefix|] == prefix
    ensures forall i :: |prefix| <= i < |r| ==> IsDigit(r[i])
  {
    var r := prefix + NatToString(n);
    assert r[..|prefix|] == prefix;
    r
  }

  /** A number of k digits gives a phone of the prefix and exactly k digits. */
  lemma PhoneLength(prefix: string, n: nat, k: nat)
    requires k >= 1 && Pow10(k - 1) <= n < Pow10(k)
    ensures |Phone(prefix, n)| == |prefix| + k
  {
    NatToStringLength(n, k);
  }

  // ---------------------------------------------------------------- money

  /** `(base_income * 0.6).round(2)`: the hundredths nearest to 60% of the income, a tie rounding up. */
  function AverageExpense(incomeHundredths: int): (r: int)
    ensures 6 * incomeHundredths - 5 < 10 * r <= 6 * incomeHundredths + 5
  {
    (6 * incomeHundredths + 5) / 10
  }

  /** `(remaining / rand(12..60)).round(2)` on integers: the division floors. */
  function MonthlyPayment(l: LoanDraw): int
    requires l.months > 0
  {
    l.remaining / l.months
  }

  /**
    A loan drawn in range owes between 30% and 80% of its amount, and pays
    the whole months of its term that the remaining balance covers.
  */
  lemma LoanBounds(l: LoanDraw)
    requires LoanInRange(l)
    ensures 3000 <= l.remaining <= 24000 && l.remaining < l.amount
    ensures MonthlyPayment(l) * l.months <= l.remaining < (MonthlyPayment(l) + 1) * l.months
    ensures 50 <= MonthlyPayment(l) <= 2000
  {
    RemainingShare(l.amount, l.remaining);
    FloorDivision(l.remaining, l.months);
    PaymentAtLeast(l.remaining, l.months);
    PaymentAtMost(l.remaining, l.months);
  }

  lemma RemainingShare(amount: int, remaining: int)
    requires 10000 <= amount <= 30000 && amount * 3 / 10 <= remaining <= amount * 8 / 10
    ensures 3000 <= remaining <= 24000 && remaining < amount
  {
  }

  lemma FloorDivision(r: int, m: int)
    requires r >= 0 && m > 0
    ensures (r / m) * m <= r < (r / m + 1) * m
  {
    assert r == (r / m) * m + r % m;
  }

  lemma PaymentAtLeast(r: int, m: int)
    requires 3000 <= r && 0 < m <= 60
    ensures r / m >= 50
  {
    var q := r / m;
    FloorDivision(r, m);
    ScaleLe(m, 60, q + 1);
    assert m * (q + 1) == (q + 1) * m;
  }

  lemma PaymentAtMost(r: int, m: int)
    requires 0 <= r <= 24000 && 12 <= m
    ensures r / m <= 2000
  {
    var q := r / m;
    FloorDivision(r, m);
    ScaleLe(12, m, q);
    assert m * q == q * m;
  }

  // ---------------------------------------------------------------- the payload

  /** One entry of `active_loans`. */
  function LoanJson(l: LoanDraw, year: nat): Json
    requires l.months > 0
  {
    JObj(map[
      "loan_id" := JStr("LO-" + NatToString(year) + "-" + NatToString(l.loanNumber)),
      "type" := JStr(LoanTypes[l.typePick % |LoanTypes|]),
      "amount" := JNum(l.amount * 100),
      "remaining_balance" := JNum(l.remaining * 100),
      "monthly_payment" := JNum(MonthlyPayment(l) * 100),
      "status" := JStr("active")])
  }

  /** `generate_active_loans`: one entry per drawn loan, none when no loan was drawn. */
  function ActiveLoans(loans: seq<LoanDraw>, year: nat): (r: seq<Json>)
    requires forall i :: 0 <= i < |loans| ==> loans[i].months > 0
    ensures |r| == |loans| && forall i :: 0 <= i < |loans| ==> r[i] == LoanJson(loans[i], year)
  {
    if loans == [] then [] else [LoanJson(loans[0], year)] + ActiveLoans(loans[1..], year)
  }

  /** `monthly_data`. */
  function MonthlyData(d: Draws): Json
  {
    JObj(map[
      "income" := JNum(d.incomeHundredths),
      "average_expense" := JNum(AverageExpense(d.incomeHundredths)),
      "savings_rate" := JNum(d.savingsHundredths)])
  }

  /** `contact`. */
  function Contact(first: string, last: string, phonePrefix: string, phoneNumber: nat): Json
  {
    JObj(map["email" := JStr(Email(first, last)), "phone" := JStr(Phone(phonePrefix, phoneNumber))])
  }

  /** The entries the webhook does not read: customer id, date, loans, account status and contact. */
  function Details(first: string, last: string, d: Draws, phonePrefix: string): map<string, Json>
    requires forall i :: 0 <= i < |d.loans| ==> d.loans[i].months > 0
  {
    map[
      "customer_id" := JStr("CUS-" + NatToString(d.customerNumber)),
      "date" := JStr(d.now),
      "active_loans" := JArr(ActiveLoans(d.loans, d.year)),
      "account_status" := JStr(AccountStatuses[d.accountPick % |AccountStatuses|]),
      "contact" := Contact(first, last, phonePrefix, d.phoneNumber)]
  }

  /** The entries that identify the application, added to the details. */
  function Identified(details: map<string, Json>, first: string, last: string, a: Application, monthly: Json): map<string, Json>
  {
    details["name" := JStr(first)]["lastname" := JStr(last)]["country" := JStr(a.country)]
      ["reference_id" := KeyJson(KeyOf(a))]["monthly_data" := monthly]
  }

  /** `generate_banking_data` for the stored record `a`; the phone's country prefix is the one difference between the simulators. */
  function Payload(a: Application, d: Draws, phonePrefix: string): map<string, Json>
    requires forall i :: 0 <= i < |d.loans| ==> d.loans[i].months > 0
  {
    var first, last := FirstName(a.fullName), LastName(a.fullName);
    Identified(Details(first, last, d, phonePrefix), first, last, a, MonthlyData(d))
  }

  /** The payload identifies the record by its `[id, country]` key and its country, and names the customer by the split of its full name. */
  lemma PayloadFields(a: Application, d: Draws, phonePrefix: string)
    requires forall i :: 0 <= i < |d.loans| ==> d.loans[i].months > 0
    ensures var p := Payload(a, d, phonePrefix);
      Field(p, "reference_id") == KeyJson(KeyOf(a)) && Field(p, "country") == JStr(a.country)
      && Field(p, "name") == JStr(FirstName(a.fullName)) && Field(p, "lastname") == JStr(LastName(a.fullName))
      && Field(p, "monthly_data") == MonthlyData(d)
  {
    var first, last := FirstName(a.fullName), LastName(a.fullName);
    IdentifiedFields(Details(first, last, d, phonePrefix), first, last, a, MonthlyData(d));
  }

  /** The payload reports the drawn income at `monthly_data.income`. */
  lemma PayloadIncome(a: Application, d: Draws, phonePrefix: string)
    requires forall i :: 0 <= i < |d.loans| ==> d.loans[i].months > 0
    ensures Dig(Payload(a, d, phonePrefix), "monthly_data", "income") == Success(JNum(d.incomeHundredths))
  {
    PayloadFields(a, d, phonePrefix);
    MonthlyIncome(Payload(a, d, phonePrefix), d);
  }

  /** Any body whose `monthly_data` is the drawn one reports the drawn income. */
  lemma MonthlyIncome(p: map<string, Json>, d: Draws)
    requires Field(p, "monthly_data") == MonthlyData(d)
    ensures Dig(p, "monthly_data", "income") == Success(JNum(d.incomeHundredths))
  {
    DigInto(p, "monthly_data", "income", MonthlyData(d).fields);
    assert Field(MonthlyData(d).fields, "income") == JNum(d.incomeHundredths);
  }

  lemma IdentifiedFields(details: map<string, Json>, first: string, last: string, a: Application, monthly: Json)
    ensures var p := Identified(details, first, last, a, monthly);
      Field(p, "reference_id") == KeyJson(KeyOf(a)) && Field(p, "country") == JStr(a.country)
      && Field(p, "monthly_data") == monthly && Field(p, "name") == JStr(first) && Field(p, "lastname") == JStr(last)
  {
  }
}
