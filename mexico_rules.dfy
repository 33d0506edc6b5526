/**
  The three Mexico rule specifications. Each is a predicate over the stored
  application that fails closed: a missing value, a document that cannot be
  read or a banking document of the wrong shape (where Ruby raises and the
  specification rescues) all give false.
*/
module MexicoRules {
  import opened Wrappers
  import opened Text
  import opened JsonValues
  import opened Records

  // ---------------------------------------------------------------- income ratio

  /**
    `RequestedAmountMonthlyIncomeSpecification.satisfied_by?`: the requested
    amount is at most 30% of the monthly income. Both are cents, so the exact
    decimal comparison is `10 * amount <= 3 * income`.
  */
  function IncomeRatioSatisfied(a: Application): (r: bool)
    ensures r <==> a.monthlyIncome.Some? && (a.requestedAmount as real) <= 0.3 * (a.monthlyIncome.value as real)
  {
    match a.monthlyIncome
    case None => false
    case Some(income) => 10 * a.requestedAmount <= 3 * income
  }

  /** The rule reads only the two amounts: every other attribute can change without changing its answer. */
  lemma IncomeRatioReadsAmounts(a: Application, b: Application)
    requires a.requestedAmount == b.requestedAmount && a.monthlyIncome == b.monthlyIncome
    ensures IncomeRatioSatisfied(a) == IncomeRatioSatisfied(b)
  {
  }

  /** The comparison is not strict: an amount of exactly 30% of the income passes, one cent more fails. */
  lemma IncomeRatioBoundary(a: Application, income: int)
    requires a.monthlyIncome == Some(income) && 10 * a.requestedAmount == 3 * income
    ensures IncomeRatioSatisfied(a)
    ensures !IncomeRatioSatisfied(a.(requestedAmount := a.requestedAmount + 1))
  {
  }

  // ---------------------------------------------------------------- full name

  /** `"…".squish.downcase.strip`, the normalisation both names go through. */
  function NormalizeName(s: string): string
  {
    Strip(Downcase(Squish(s)))
  }

  lemma {:induction false} StripStrip(s: string)
    ensures Strip(Strip(s)) == Strip(s)
  {
    var u := StripLeft(s);
    var v := StripRight(u);
    if v != [] {
      assert v[0] == u[0];
    }
  }

  /** The normalisation is `squish(downcase(s))`: lower-casing commutes with collapsing and stripping white space. */
  lemma {:induction false} NormalizeNameIsSquishDowncase(s: string)
    ensures NormalizeName(s) == Squish(Downcase(s))
  {
    CollapseDowncase(s);
    StripDowncase(Collapse(s));
    StripStrip(Downcase(Collapse(s)));
    calc {
      Squish(Downcase(s));
      Strip(Collapse(Downcase(s)));
      Strip(Downcase(Collapse(s)));
      Downcase(Strip(Collapse(s)));
      Downcase(Squish(s));
    }
    StripDowncase(Squish(s));
    calc {
      NormalizeName(s);
      Strip(Downcase(Squish(s)));
      Downcase(Strip(Squish(s)));
      { StripStrip(Collapse(s)); }
      Downcase(Squish(s));
    }
  }

  /** The case a name is written in does not matter. */
  lemma {:induction false} NormalizeNameIgnoresCase(s: string)
    ensures NormalizeName(Downcase(s)) == NormalizeName(s)
    ensures NormalizeName(Upcase(s)) == NormalizeName(s)
  {
    NormalizeNameIsSquishDowncase(s);
    NormalizeNameIsSquishDowncase(Downcase(s));
    NormalizeNameIsSquishDowncase(Upcase(s));
    DowncaseUpcase(s);
  }

  /** How many white-space characters separate two parts of a name does not matter. */
  lemma {:induction false} NormalizeNameIgnoresSpacing(x: string, w1: string, w2: string, y: string)
    requires w1 != [] && AllSpace(w1) && w2 != [] && AllSpace(w2)
    ensures NormalizeName(x + w1 + y) == NormalizeName(x + w2 + y)
  {
    CollapseRun(x, w1, w2, y);
  }

  /**
    A banking-data name part as the rule uses it: None when it is blank (the
    rule fails) or an array or hash (whose `inspect` rendering is not
    modelled), otherwise what interpolation prints for it.
  */
  function NamePart(j: Json): (r: Option<string>)
    ensures r.Some? <==> Present(j) && Render(j).Some?
    ensures r.Some? ==> r == Render(j) && !Blank(r.value)
  {
    if Present(j) && Render(j).Some? then PresentRendersNonBlank(j); Render(j) else None
  }

  /**
    `IdentityDocumentFullnameSpecification.satisfied_by?`. A nil banking
    document is read as `{}`; one that is not a hash makes `[:name]` raise,
    which the rule rescues.
  */
  function FullnameMatches(a: Application): (r: bool)
    ensures r <==> !Blank(a.fullName) && a.bankingData.JObj?
                   && NamePart(Field(a.bankingData.fields, "name")).Some?
                   && NamePart(Field(a.bankingData.fields, "lastname")).Some?
                   && Squish(Downcase(NamePart(Field(a.bankingData.fields, "name")).value + " "
                                      + NamePart(Field(a.bankingData.fields, "lastname")).value))
                      == Squish(Downcase(a.fullName))
  {
    if Blank(a.fullName) then false
    else match a.bankingData
      case JObj(m) =>
        (match (NamePart(Field(m, "name")), NamePart(Field(m, "lastname")))
         case (Some(name), Some(lastname)) =>
           NormalizeNameIsSquishDowncase(name + " " + lastname);
           NormalizeNameIsSquishDowncase(a.fullName);
           NormalizeName(name + " " + lastname) == NormalizeName(a.fullName)
         case _ => false)
      case _ => false
  }

  /** A number in the banking data is compared as the digits it prints: `{"name": 5, "lastname": "Perez"}` matches "5 Perez". */
  lemma NumberNameMatches(a: Application)
    requires a.fullName == "5 Perez"
    requires a.bankingData == JObj(map["name" := JNum(500), "lastname" := JStr("Perez")])
    ensures FullnameMatches(a)
  {
    FivePrintsAsDigit();
    assert !IsSpace("Perez"[0]);
    assert Field(a.bankingData.fields, "name") == JNum(500) && Field(a.bankingData.fields, "lastname") == JStr("Perez");
    assert !IsSpace(a.fullName[0]) && "5" + " " + "Perez" == a.fullName;
  }

  lemma FivePrintsAsDigit()
    ensures NamePart(JNum(500)) == Some("5")
  {
    assert NatToString(5) == "5";
    assert FractionText(0) == [];
    assert NumberToString(500) == NatToString(5) + [] == "5";
  }

  /** Writing the declared name in another case does not change the outcome. */
  lemma FullnameIgnoresCase(a: Application)
    ensures FullnameMatches(a.(fullName := Downcase(a.fullName))) == FullnameMatches(a)
    ensures FullnameMatches(a.(fullName := Upcase(a.fullName))) == FullnameMatches(a)
  {
    BlankCaseless(a.fullName);
    NormalizeNameIgnoresCase(a.fullName);
  }

  lemma BlankCaseless(s: string)
    ensures Blank(Downcase(s)) == Blank(s) && Blank(Upcase(s)) == Blank(s)
  {
    forall i | 0 <= i < |s|
      ensures IsSpace(Downcase(s)[i]) == IsSpace(s[i]) && IsSpace(Upcase(s)[i]) == IsSpace(s[i])
    {
      LowerKeepsSpaces(s[i]);
      UpperKeepsSpaces(s[i]);
    }
  }

  lemma UpperKeepsSpaces(c: char)
    ensures IsSpace(Upper(c)) == IsSpace(c)
  {
  }

  // ---------------------------------------------------------------- document format

  const AcceptedSuffix: string := ".file"
  const RequiredMarker: string := "CURP"

  /**
    `IdentityDocumentFormatSpecification.satisfied_by?`: a document is
    attached, its lower-cased filename ends in `.file`, and its upper-cased
    text contains `CURP`. Bytes that cannot be read as text fail.
  */
  function DocumentFormatValid(doc: Option<Document>): (r: bool)
    ensures r <==> (doc.Some? && EndsWith(Downcase(doc.value.filename), AcceptedSuffix)
                    && doc.value.content.Readable? && exists i :: OccursAt(Upcase(doc.value.content.text), RequiredMarker, i))
  {
    match doc
    case None => false
    case Some(d) =>
      if !EndsWith(Downcase(d.filename), AcceptedSuffix) then false
      else match d.content
        case Unreadable => false
        case Readable(text) =>
          ContainsAt(Upcase(text), RequiredMarker);
          Contains(Upcase(text), RequiredMarker)
  }

  /** Both the suffix and the marker are matched without regard to case. */
  lemma DocumentFormatIgnoresCase(filename: string, text: string)
    ensures DocumentFormatValid(Some(Document(Upcase(filename), Readable(Downcase(text)))))
         == DocumentFormatValid(Some(Document(filename, Readable(text))))
  {
    DowncaseUpcase(filename);
    DowncaseUpcase(text);
  }

  /** `ID.FILE` with `curp` in its text is accepted; a document without the suffix is not, whatever it holds. */
  lemma DocumentFormatExamples(text: string)
    ensures DocumentFormatValid(Some(Document("ID.FILE", Readable("curp: XXXX"))))
    ensures !DocumentFormatValid(Some(Document("id.pdf", Readable(text))))
    ensures !DocumentFormatValid(None)
  {
    assert Downcase("ID.FILE") == "id.file";
    assert Upcase("curp: XXXX") == "CURP: XXXX";
    assert OccursAt(Upcase("curp: XXXX"), RequiredMarker, 0);
    assert Downcase("id.pdf") == "id.pdf";
    assert Downcase("id.pdf")[1..] != AcceptedSuffix;
  }
}
