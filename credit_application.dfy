/**
  The `CreditApplication` model: validations, the row the database stores,
  pagination, the count cache and its invalidation, the country codes, and the
  table itself as a `Database` object whose operations run the model's
  callbacks and the audit trigger.
*/
module CreditApplication {
  import opened Wrappers
  import opened Text
  import opened Faults
  import opened JsonValues
  import opened Records
  import opened AuditTrigger
  import opened NotificationService

  // ---------------------------------------------------------------- validations

  /** A decimal attribute as assigned: nil or empty, a non-numeric string, or a number of cents. */
  datatype DecimalInput = NoValue | NotANumber | Number(cents: int)

  predicate PresentText(s: Option<string>)
  {
    s.Some? && !Blank(s.value)
  }

  function AmountErrors(amount: DecimalInput): seq<string>
  {
    match amount
    case NoValue => ["Requested amount can't be blank", "Requested amount is not a number"]
    case NotANumber => ["Requested amount is not a number"]
    case Number(c) => if c > 0 then [] else ["Requested amount must be greater than 0"]
  }

  function IncomeErrors(income: DecimalInput): seq<string>
  {
    match income
    case NoValue => []
    case NotANumber => ["Monthly income is not a number"]
    case Number(c) => if c > 0 then [] else ["Monthly income must be greater than 0"]
  }

  /** `errors.full_messages`, in the order the model declares its validations. */
  function ValidationErrors(userId: Option<nat>, country: Option<string>, fullName: Option<string>,
                            amount: DecimalInput, date: string, income: DecimalInput): (errs: seq<string>)
    ensures errs == [] <==>
      userId.Some? && PresentText(country) && PresentText(fullName)
      && amount.Number? && amount.cents > 0 && !Blank(date)
      && (income.NoValue? || (income.Number? && income.cents > 0))
    ensures userId.None? ==> errs[0] == "User must exist"
  {
    (if userId.None? then ["User must exist"] else [])
    + (if PresentText(country) then [] else ["Country can't be blank"])
    + (if PresentText(fullName) then [] else ["Full name can't be blank"])
    + AmountErrors(amount)
    + (if Blank(date) then ["Application date can't be blank"] else [])
    + IncomeErrors(income)
  }

  function IncomeInput(income: Option<int>): DecimalInput
  {
    if income.Some? then Number(income.value) else NoValue
  }

  /** What the validations demand of a record. */
  predicate ValidRecord(a: Application)
  {
    a.userId.Some? && !Blank(a.country) && !Blank(a.fullName) && a.requestedAmount > 0
    && !Blank(a.applicationDate) && (a.monthlyIncome.None? || a.monthlyIncome.value > 0)
  }

  /** The validation errors of a record that is about to be saved. */
  function RecordErrors(a: Application): (errs: seq<string>)
    ensures errs == [] <==> ValidRecord(a)
  {
    ValidationErrors(a.userId, Some(a.country), Some(a.fullName), Number(a.requestedAmount),
      a.applicationDate, IncomeInput(a.monthlyIncome))
  }

  // ---------------------------------------------------------------- the stored row

  function CheckJson(c: Check): Json
  {
    JObj(map["name" := JStr(c.name), "result" := JBool(c.result)])
  }

  /** `to_jsonb(row)`: the columns of the table (timestamps aside) as the trigger sees them. */
  function ToRow(a: Application): Row
  {
    map[
      "id" := JNum(a.id * 100),
      "country" := JStr(a.country),
      "full_name" := JStr(a.fullName),
      "requested_amount" := JNum(a.requestedAmount),
      "application_date" := JStr(a.applicationDate),
      "status" := JStr(StatusName(a.status)),
      "banking_data" := a.bankingData,
      "monthly_income" := if a.monthlyIncome.Some? then JNum(a.monthlyIncome.value) else JNull,
      "validation_result" := JArr(seq(|a.validationResult|, i requires 0 <= i < |a.validationResult| => CheckJson(a.validationResult[i]))),
      "user_id" := if a.userId.Some? then JNum(a.userId.value * 100) else JNull]
  }

  function TupleOf(a: Application): Tuple
  {
    Tuple(a.id, ToRow(a))
  }

  /** Two records with the same row differ at most in their attachment. */
  lemma ToRowInjective(a: Application, b: Application)
    requires ToRow(a) == ToRow(b)
    ensures a == b.(identityDocument := a.identityDocument)
  {
    assert ToRow(a)["id"] == ToRow(b)["id"];
    assert ToRow(a)["status"] == ToRow(b)["status"];
    ParseStatusName(a.status);
    ParseStatusName(b.status);
    assert ToRow(a)["banking_data"] == ToRow(b)["banking_data"];
    assert ToRow(a)["country"] == ToRow(b)["country"];
    assert ToRow(a)["full_name"] == ToRow(b)["full_name"];
    assert ToRow(a)["requested_amount"] == ToRow(b)["requested_amount"];
    assert ToRow(a)["application_date"] == ToRow(b)["application_date"];
    assert ToRow(a)["monthly_income"] == ToRow(b)["monthly_income"];
    assert ToRow(a)["user_id"] == ToRow(b)["user_id"];
    assert ToRow(a)["validation_result"] == ToRow(b)["validation_result"];
    var va, vb := a.validationResult, b.validationResult;
    assert |va| == |vb|;
    forall i | 0 <= i < |va|
      ensures va[i] == vb[i]
    {
      assert CheckJson(va[i]) == ToRow(a)["validation_result"].items[i];
      assert CheckJson(va[i]).fields["name"] == CheckJson(vb[i]).fields["name"];
      assert CheckJson(va[i]).fields["result"] == CheckJson(vb[i]).fields["result"];
    }
    assert va == vb;
  }

  /** An UPDATE whose record really changed always logs at least one field, and logs `status` exactly when the status changed. */
  lemma UpdateLogsAChange(before: Application, after: Application)
    requires before.identityDocument == after.identityDocument && before != after
    ensures Diff(ToRow(before), ToRow(after)) != map[]
    ensures "status" in Diff(ToRow(before), ToRow(after)) <==> before.status != after.status
  {
    SomeFieldLogged(before, after);
    StatusLogged(before, after);
  }

  lemma SomeFieldLogged(before: Application, after: Application)
    requires before.identityDocument == after.identityDocument && before != after
    ensures Diff(ToRow(before), ToRow(after)) != map[]
  {
    if Diff(ToRow(before), ToRow(after)) == map[] {
      DiffReplay(ToRow(before), ToRow(after));
      assert Apply(ToRow(before), map[]) == ToRow(before);
      ToRowInjective(before, after);
    }
  }

  lemma StatusLogged(before: Application, after: Application)
    ensures "status" in Diff(ToRow(before), ToRow(after)) <==> before.status != after.status
  {
    var o, n := ToRow(before), ToRow(after);
    assert "status" in n.Keys;
    assert o["status"] == JStr(StatusName(before.status)) && n["status"] == JStr(StatusName(after.status));
    ParseStatusName(before.status);
    ParseStatusName(after.status);
    assert "status" in Diff(o, n) <==> IsDistinct(o, n, "status");
  }

  // ---------------------------------------------------------------- pagination

  /** `page.to_i.positive? ? page.to_i : 1` on the `page` query parameter (nil when absent). */
  function PageNumber(page: Option<string>): int
  {
    var n := if page.Some? then StringToI(page.value) else 0;
    if n > 0 then n else 1
  }

  /** The listing always shows a page from 1 on, and reads back the page number a client printed. */
  lemma PageNumberOfNumeral(n: nat)
    ensures PageNumber(None) == 1
    ensures PageNumber(Some(NatToString(n))) == if n > 0 then n else 1
  {
    StringToIOfNat(n);
  }

  function Offset(page: int, perPage: nat): int
  {
    (page - 1) * perPage
  }

  /** `(total_count.to_f / per_page).ceil`: the fewest pages that hold every record. */
  function TotalPages(total: nat, perPage: nat): (pages: nat)
    requires perPage > 0
    ensures pages * perPage >= total
    ensures pages == 0 || (pages - 1) * perPage < total
  {
    var q := (total + perPage - 1) / perPage;
    assert q * perPage <= total + perPage - 1 < (q + 1) * perPage;
    q
  }

  /** Every record lies on exactly the page its position says, and that page exists. */
  lemma EveryRecordOnAPage(total: nat, perPage: nat, i: nat)
    requires perPage > 0 && i < total
    ensures var p := i / perPage + 1;
      1 <= p <= TotalPages(total, perPage)
      && Offset(p, perPage) <= i < Offset(p, perPage) + perPage
  {
    var q := i / perPage;
    assert i == q * perPage + i % perPage;
    assert Offset(q + 1, perPage) == q * perPage;
    var t := TotalPages(total, perPage);
    if t <= q {
      ScaleLe(t, q, perPage);
      assert false;
    }
  }

  // ---------------------------------------------------------------- the count cache

  const CountKeyPrefix: string := "credit_applications_count:"

  /** `count_cache_key(filters)`: a missing (nil) filter is written `all`. */
  function CountCacheKey(country: Option<string>, status: Option<string>): string
  {
    CountKeyPrefix + country.GetOr("all") + ":" + status.GetOr("all")
  }

  /** `saved_change_to_X`: nil, or the value before the save. */
  datatype Change = Unchanged | ChangedFrom(previous: Option<string>)

  /** The keys `invalidate_count_cache` deletes, in order. */
  function InvalidatedKeys(country: string, status: string, countryChange: Change, statusChange: Change): seq<string>
  {
    [CountCacheKey(None, None), CountCacheKey(Some(country), None),
     CountCacheKey(None, Some(status)), CountCacheKey(Some(country), Some(status))]
    + (match countryChange
       case Unchanged => []
       case ChangedFrom(o) => [CountCacheKey(o, None), CountCacheKey(o, Some(status))])
    + (match statusChange
       case Unchanged => []
       case ChangedFrom(o) => [CountCacheKey(None, o), CountCacheKey(Some(country), o)])
  }

  /** The cache after `Rails.cache.delete` of each key. */
  function Without(cache: map<string, nat>, keys: seq<string>): map<string, nat>
  {
    map k | k in cache && k !in keys :: cache[k]
  }

  /** `by_country` and `by_status` as the listing applies them: a blank filter selects everything. */
  predicate Matches(country: Option<string>, status: Option<string>, a: Application)
  {
    (!PresentText(country) || country.value == a.country)
    && (!PresentText(status) || status.value == StatusName(a.status))
  }

  function MatchingKeys(apps: map<Key, Application>, country: Option<string>, status: Option<string>): set<Key>
  {
    set k | k in apps && Matches(country, status, apps[k])
  }

  /** `applications.count` for a filter. */
  function CountMatching(apps: map<Key, Application>, country: Option<string>, status: Option<string>): nat
  {
    |MatchingKeys(apps, country, status)|
  }

  /** Two stores that agree on which records a filter selects give it the same count. */
  lemma CountUnaffected(apps: map<Key, Application>, apps2: map<Key, Application>, country: Option<string>, status: Option<string>)
    requires forall k :: (k in apps && Matches(country, status, apps[k])) <==> (k in apps2 && Matches(country, status, apps2[k]))
    ensures CountMatching(apps, country, status) == CountMatching(apps2, country, status)
  {
    assert MatchingKeys(apps, country, status) == MatchingKeys(apps2, country, status);
  }

  /** The key `filtered_and_paginated` caches its count under, as written: the filter values verbatim. */
  function AsWrittenListingKey(country: Option<string>, status: Option<string>): string
  {
    CountCacheKey(country, status)
  }

  /**
    As written, a blank country filter (`?country=`) counts every record, yet the
    key it caches under, `credit_applications_count::all`, is never among the keys
    a create, update or destroy deletes.
  */
  lemma BlankFilterNeverInvalidated(a: Application, countryChange: Change, statusChange: Change)
    requires HasPartition(a.country)
    requires countryChange == Unchanged || countryChange == ChangedFrom(None)
    ensures Matches(Some(""), None, a)
    ensures AsWrittenListingKey(Some(""), None) !in InvalidatedKeys(a.country, StatusName(a.status), countryChange, statusChange)
  {
    var blank := AsWrittenListingKey(Some(""), None);
    assert blank[26] == ':';
    var keys := InvalidatedKeys(a.country, StatusName(a.status), countryChange, statusChange);
    forall i | 0 <= i < |keys|
      ensures keys[i][26] != ':'
    {
    }
  }

  /** As written, the filter `?country=all` shares its key with the unfiltered listing although it selects nothing. */
  lemma AllFilterCollides(a: Application)
    requires HasPartition(a.country)
    ensures AsWrittenListingKey(Some("all"), None) == AsWrittenListingKey(None, None)
    ensures Matches(None, None, a) && !Matches(Some("all"), None, a)
  {
    assert !Blank("all") by {
      assert "all"[0] == 'a';
    }
  }

  predicate CacheableCountry(c: Option<string>)
  {
    c.None? || HasPartition(c.value)
  }

  predicate CacheableStatus(s: Option<string>)
  {
    s.None? || ParseStatus(s.value).Some?
  }

  /** A blank filter value is read as no filter. */
  function Normal(f: Option<string>): (r: Option<string>)
    ensures r.None? || PresentText(r)
  {
    if PresentText(f) then f else None
  }

  /**
    The listing key, corrected: a blank filter is keyed as absent, and a filter
    value that no stored record can carry is not cached at all (None).
  */
  function ListingCacheKey(country: Option<string>, status: Option<string>): Option<string>
  {
    var c, s := Normal(country), Normal(status);
    if CacheableCountry(c) && CacheableStatus(s) then Some(CountCacheKey(c, s)) else None
  }

  /** For nil and present filter values the corrected key is the key as written. */
  lemma ListingKeyAgrees(country: Option<string>, status: Option<string>)
    requires country.None? || PresentText(country)
    requires status.None? || PresentText(status)
    requires ListingCacheKey(country, status).Some?
    ensures ListingCacheKey(country, status) == Some(AsWrittenListingKey(country, status))
  {
  }

  /** Every change that can alter a cached count deletes its key: a record the filter selects was inserted, updated or destroyed. */
  lemma ListingKeyInvalidated(country: Option<string>, status: Option<string>, a: Application, countryChange: Change, statusChange: Change)
    requires HasPartition(a.country)
    requires ListingCacheKey(country, status).Some?
    requires Matches(country, status, a)
    ensures ListingCacheKey(country, status).value in InvalidatedKeys(a.country, StatusName(a.status), countryChange, statusChange)
  {
    var keys := InvalidatedKeys(a.country, StatusName(a.status), countryChange, statusChange);
    var c, s := Normal(country), Normal(status);
    if c.None? && s.None? {
      assert keys[0] == CountCacheKey(c, s);
    } else if s.None? {
      assert keys[1] == CountCacheKey(c, s);
    } else if c.None? {
      assert keys[2] == CountCacheKey(c, s);
    } else {
      assert keys[3] == CountCacheKey(c, s);
    }
  }

  /** A status change also deletes the key of every filter that selected the record before the change. */
  lemma ListingKeyInvalidatedBefore(country: Option<string>, status: Option<string>, before: Application, a: Application, countryChange: Change)
    requires HasPartition(a.country) && before.country == a.country
    requires ListingCacheKey(country, status).Some?
    requires Matches(country, status, before)
    ensures ListingCacheKey(country, status).value in
      InvalidatedKeys(a.country, StatusName(a.status), countryChange, ChangedFrom(Some(StatusName(before.status))))
  {
    var keys := InvalidatedKeys(a.country, StatusName(a.status), countryChange, ChangedFrom(Some(StatusName(before.status))));
    var c, s := Normal(country), Normal(status);
    var n := |keys|;
    if c.None? && s.None? {
      assert keys[0] == CountCacheKey(c, s);
    } else if s.None? {
      assert keys[1] == CountCacheKey(c, s);
    } else if c.None? {
      assert keys[n - 2] == CountCacheKey(c, s);
    } else {
      assert keys[n - 1] == CountCacheKey(c, s);
    }
  }

  /** The first colon of `x + ":" + y` is the one after `x`. */
  lemma FirstColon(x: string, y: string)
    requires ':' !in x
    ensures (x + ":" + y)[|x|] == ':'
    ensures forall i :: 0 <= i < |x| ==> (x + ":" + y)[i] != ':'
  {
    forall i | 0 <= i < |x|
      ensures (x + ":" + y)[i] != ':'
    {
      assert (x + ":" + y)[i] == x[i];
    }
  }

  lemma SplitAtColon(x: string, y: string, x2: string, y2: string)
    requires ':' !in x && ':' !in x2
    requires x + ":" + y == x2 + ":" + y2
    ensures x == x2 && y == y2
  {
    var s := x + ":" + y;
    FirstColon(x, y);
    FirstColon(x2, y2);
    assert |x| == |x2|;
    assert x == s[..|x|] && x2 == (x2 + ":" + y2)[..|x|];
    assert y == s[|x| + 1..] && y2 == (x2 + ":" + y2)[|x| + 1..];
  }

  lemma KeyParts(country: Option<string>, status: Option<string>)
    ensures CountCacheKey(country, status)[|CountKeyPrefix|..] == country.GetOr("all") + ":" + status.GetOr("all")
  {
  }

  /** The segment a cacheable country filter is written as determines the filter. */
  lemma CountrySegment(c: Option<string>, c2: Option<string>)
    requires CacheableCountry(c) && CacheableCountry(c2)
    requires c.GetOr("all") == c2.GetOr("all")
    ensures c == c2
  {
  }

  lemma StatusSegment(s: Option<string>, s2: Option<string>)
    requires CacheableStatus(s) && CacheableStatus(s2)
    requires s.GetOr("all") == s2.GetOr("all")
    ensures s == s2
    ensures s.Some? ==> ':' !in s.value
  {
    if s.Some? {
      StatusNamesHaveNoColon(ParseStatus(s.value).value);
    }
    if s2.Some? {
      StatusNamesHaveNoColon(ParseStatus(s2.value).value);
    }
  }

  lemma StatusNamesHaveNoColon(s: Status)
    ensures ':' !in StatusName(s) && StatusName(s) != "all"
  {
  }

  lemma MatchesNormal(country: Option<string>, status: Option<string>, a: Application)
    ensures Matches(country, status, a) == Matches(Normal(country), Normal(status), a)
  {
  }

  /** Filters that share a corrected key select the same records, so they share a count. */
  lemma ListingKeyInjective(country: Option<string>, status: Option<string>, country2: Option<string>, status2: Option<string>)
    requires ListingCacheKey(country, status).Some?
    requires ListingCacheKey(country, status) == ListingCacheKey(country2, status2)
    ensures Normal(country) == Normal(country2) && Normal(status) == Normal(status2)
    ensures forall a :: Matches(country, status, a) == Matches(country2, status2, a)
  {
    var c, s, c2, s2 := Normal(country), Normal(status), Normal(country2), Normal(status2);
    var x, y, x2, y2 := c.GetOr("all"), s.GetOr("all"), c2.GetOr("all"), s2.GetOr("all");
    KeyParts(c, s);
    KeyParts(c2, s2);
    assert x + ":" + y == x2 + ":" + y2;
    assert ':' !in x && ':' !in x2;
    SplitAtColon(x, y, x2, y2);
    CountrySegment(c, c2);
    StatusSegment(s, s2);
    forall a
      ensures Matches(country, status, a) == Matches(country2, status2, a)
    {
      MatchesNormal(country, status, a);
      MatchesNormal(country2, status2, a);
    }
  }

  /** The cached counts agree with the table: every cached key holds the count of every filter that maps to it. */
  ghost predicate CacheCoherent(apps: map<Key, Application>, cache: map<string, nat>)
  {
    forall country: Option<string>, status: Option<string> {:trigger ListingCacheKey(country, status)} ::
      ListingCacheKey(country, status).Some? && ListingCacheKey(country, status).value in cache
      ==> cache[ListingCacheKey(country, status).value] == CountMatching(apps, country, status)
  }

  // ---------------------------------------------------------------- country codes

  /** `country_mapping_to_code`. */
  function CountryToCode(country: string): string
  {
    var d := Downcase(country);
    if d == "mexico" then "MX" else if d == "portugal" then "PT" else Upcase(country)
  }

  /** `code_to_country_mapping`. */
  function CodeToCountry(code: string): string
  {
    var u := Upcase(code);
    if u == "MX" then "mexico" else if u == "PT" then "portugal" else Downcase(code)
  }

  /** A stored country reads back from its code, whatever the case the code is written in. */
  lemma CountryCodeRoundTrip(country: string)
    requires HasPartition(country)
    ensures CodeToCountry(CountryToCode(country)) == country
    ensures CodeToCountry(Downcase(CountryToCode(country))) == country
  {
    assert Downcase("mexico") == "mexico";
    assert Downcase("portugal") == "portugal";
    assert Upcase("MX") == "MX" && Upcase("PT") == "PT";
    assert Upcase("mx") == "MX" && Upcase("pt") == "PT";
    assert Downcase("MX") == "mx" && Downcase("PT") == "pt";
  }

  /** A known code reads back from its country. */
  lemma CodeCountryRoundTrip(code: string)
    requires Upcase(code) == "MX" || Upcase(code) == "PT"
    ensures CountryToCode(CodeToCountry(code)) == Upcase(code)
  {
    assert Downcase("mexico") == "mexico";
    assert Downcase("portugal") == "portugal";
  }

  // ---------------------------------------------------------------- the table

  /** The attributes `CreditApplication.new` receives when an application is created. */
  datatype NewApplication = NewApplication(
    country: Option<string>,
    fullName: Option<string>,
    requestedAmount: DecimalInput,
    status: Option<Status>,
    applicationDate: string,
    userId: Option<nat>)

  function CreateErrors(n: NewApplication): seq<string>
  {
    ValidationErrors(n.userId, Some(n.country.GetOr("")), n.fullName, n.requestedAmount, n.applicationDate, NoValue)
  }

  /** The record inserted for a valid new application under the next id of the sequence. */
  function Built(n: NewApplication, id: nat): Application
    requires CreateErrors(n) == [] && n.status.Some?
  {
    Application(id, n.country.value, n.fullName.value, n.requestedAmount.cents, n.applicationDate,
      n.status.value, None, JNull, [], None, n.userId)
  }

  /** What `save` reports for a new record: saved, invalid (false), or an exception from the INSERT. */
  datatype SaveOutcome = Saved(key: Key) | Invalid(errors: seq<string>) | Raised(fault: Fault)

  /** What every stored record satisfies: it sits under its own key in a partition, is valid, and its id was issued. */
  ghost predicate Stored(apps: map<Key, Application>, nextId: nat)
  {
    (forall k :: k in apps ==> k == KeyOf(apps[k]) && HasPartition(k.country) && ValidRecord(apps[k]) && k.id < nextId)
    && (forall k, k2 :: k in apps && k2 in apps && k.id == k2.id ==> k == k2)
  }

  /** The audit events a save of `before` as `after` writes: none when nothing changed. */
  function ChangeEvents(before: Application, after: Application): seq<Event>
  {
    if before == after then [] else [EventFor(Update(TupleOf(before), TupleOf(after)))]
  }

  /** The broadcasts of `after_update :notify_status_change, if: :saved_change_to_status?`. */
  function Notified(before: Application, after: Application, failing: bool): seq<Broadcast>
  {
    if before.status != after.status then Delivered(after, failing) else []
  }

  /** A cache stays coherent when every filter whose key survives selects the same records before and after. */
  lemma CoherentAfter(apps: map<Key, Application>, cache: map<string, nat>, apps2: map<Key, Application>, keys: seq<string>, key: Key)
    requires CacheCoherent(apps, cache)
    requires forall k :: k != key ==> (k in apps <==> k in apps2) && (k in apps ==> apps[k] == apps2[k])
    requires forall country, status :: ListingCacheKey(country, status).Some? && ListingCacheKey(country, status).value !in keys ==>
      (key in apps && Matches(country, status, apps[key])) == (key in apps2 && Matches(country, status, apps2[key]))
    ensures CacheCoherent(apps2, Without(cache, keys))
  {
    forall country: Option<string>, status: Option<string> |
      ListingCacheKey(country, status).Some? && ListingCacheKey(country, status).value in Without(cache, keys)
      ensures Without(cache, keys)[ListingCacheKey(country, status).value] == CountMatching(apps2, country, status)
    {
      CountUnaffected(apps, apps2, country, status);
    }
  }

  /** The keys a save of `before` as `after` deletes: the counts only move when the status does. */
  function SaveKeys(before: Application, after: Application): seq<string>
  {
    if before.status != after.status
    then InvalidatedKeys(after.country, StatusName(after.status), Unchanged, ChangedFrom(Some(StatusName(before.status))))
    else []
  }

  /** Saving a changed record keeps the store invariant and, with `SaveKeys` deleted, the cache coherent. */
  lemma SaveKeepsInvariant(apps: map<Key, Application>, nextId: nat, cache: map<string, nat>, a: Application)
    requires Stored(apps, nextId) && CacheCoherent(apps, cache)
    requires KeyOf(a) in apps && ValidRecord(a)
    ensures Stored(apps[KeyOf(a) := a], nextId)
    ensures CacheCoherent(apps[KeyOf(a) := a], Without(cache, SaveKeys(apps[KeyOf(a)], a)))
  {
    var key := KeyOf(a);
    var before := apps[key];
    var keys := SaveKeys(before, a);
    assert before.country == a.country;
    forall country, status | ListingCacheKey(country, status).Some? && ListingCacheKey(country, status).value !in keys
      ensures Matches(country, status, before) == Matches(country, status, a)
    {
      if before.status != a.status {
        if Matches(country, status, a) {
          ListingKeyInvalidated(country, status, a, Unchanged, ChangedFrom(Some(StatusName(before.status))));
        }
        if Matches(country, status, before) {
          ListingKeyInvalidatedBefore(country, status, before, a, Unchanged);
        }
      }
    }
    CoherentAfter(apps, cache, apps[key := a], keys, key);
  }

  /** Attaching a document changes neither what is stored in the row nor any count. */
  lemma AttachKeepsInvariant(apps: map<Key, Application>, nextId: nat, cache: map<string, nat>, key: Key, doc: Document)
    requires Stored(apps, nextId) && CacheCoherent(apps, cache) && key in apps
    ensures Stored(apps[key := apps[key].(identityDocument := Some(doc))], nextId)
    ensures CacheCoherent(apps[key := apps[key].(identityDocument := Some(doc))], cache)
  {
    var a := apps[key].(identityDocument := Some(doc));
    assert KeyOf(a) == key;
    CoherentAfter(apps, cache, apps[key := a], [], key);
    assert Without(cache, []) == cache;
  }

  /**
    The touch of an attachment is logged as an `updated` event of the same
    record whose changed fields hold no modelled column: the row has no
    timestamps, so the `updated_at` the trigger records is left out.
  */
  lemma TouchChangesNoColumn(a: Application, doc: Document)
    ensures EventFor(Update(TupleOf(a), TupleOf(a.(identityDocument := Some(doc)))))
            == Event(a.id, "updated", ChangedFields(map[]))
  {
    AttachKeepsRow(a, doc);
    DiffEmptyIff(ToRow(a), ToRow(a));
  }

  /** The attachment is not a column of the row. */
  lemma AttachKeepsRow(a: Application, doc: Document)
    ensures TupleOf(a.(identityDocument := Some(doc))) == TupleOf(a)
  {
    assert ToRow(a.(identityDocument := Some(doc))) == ToRow(a);
  }

  /** Issuing an id keeps every stored id below the sequence. */
  lemma StoredLater(apps: map<Key, Application>, id: nat)
    requires Stored(apps, id)
    ensures Stored(apps, id + 1)
  {
  }

  /** A valid new application builds a valid record. */
  lemma BuiltValid(n: NewApplication, id: nat)
    requires CreateErrors(n) == [] && n.status.Some?
    ensures ValidRecord(Built(n, id)) && Built(n, id).id == id && Built(n, id).country == n.country.value
  {
  }

  /** Inserting a new valid record under a fresh id keeps the store invariant and, with its keys deleted, the cache coherent. */
  lemma InsertKeepsInvariant(apps: map<Key, Application>, cache: map<string, nat>, a: Application,
                              apps2: map<Key, Application>, cache2: map<string, nat>)
    requires Stored(apps, a.id) && CacheCoherent(apps, cache) && HasPartition(a.country) && ValidRecord(a)
    requires apps2 == apps[KeyOf(a) := a]
    requires cache2 == Without(cache, InvalidatedKeys(a.country, StatusName(a.status), ChangedFrom(None), ChangedFrom(None)))
    ensures KeyOf(a) !in apps && Stored(apps2, a.id + 1) && CacheCoherent(apps2, cache2)
  {
    var key := KeyOf(a);
    var keys := InvalidatedKeys(a.country, StatusName(a.status), ChangedFrom(None), ChangedFrom(None));
    forall country, status | ListingCacheKey(country, status).Some? && ListingCacheKey(country, status).value !in keys
      ensures !Matches(country, status, a)
    {
      if Matches(country, status, a) {
        ListingKeyInvalidated(country, status, a, ChangedFrom(None), ChangedFrom(None));
      }
    }
    CoherentAfter(apps, cache, apps[key := a], keys, key);
  }

  /** Destroying a record keeps the store invariant and, with its keys deleted, the cache coherent. */
  lemma DestroyKeepsInvariant(apps: map<Key, Application>, nextId: nat, cache: map<string, nat>, key: Key)
    requires Stored(apps, nextId) && CacheCoherent(apps, cache) && key in apps
    ensures Stored(apps - {key}, nextId)
    ensures CacheCoherent(apps - {key}, Without(cache, InvalidatedKeys(key.country, StatusName(apps[key].status), Unchanged, Unchanged)))
  {
    var a := apps[key];
    var keys := InvalidatedKeys(key.country, StatusName(a.status), Unchanged, Unchanged);
    assert KeyOf(a) == key;
    forall country, status | ListingCacheKey(country, status).Some? && ListingCacheKey(country, status).value !in keys
      ensures !Matches(country, status, a)
    {
      if Matches(country, status, a) {
        ListingKeyInvalidated(country, status, a, Unchanged, Unchanged);
      }
    }
    CoherentAfter(apps, cache, apps - {key}, keys, key);
  }

  /** Filters that select the same records have the same count. */
  lemma SameSelectionSameCount(apps: map<Key, Application>, country: Option<string>, status: Option<string>,
                               country2: Option<string>, status2: Option<string>)
    requires forall a :: Matches(country, status, a) == Matches(country2, status2, a)
    ensures CountMatching(apps, country, status) == CountMatching(apps, country2, status2)
  {
    assert MatchingKeys(apps, country, status) == MatchingKeys(apps, country2, status2);
  }

  /** `credit_application_events` after `dependent: :destroy` removed the events of one application. */
  function EventsWithout(events: seq<Event>, id: int): (r: seq<Event>)
    ensures forall e :: e in r <==> e in events && e.creditApplicationId != id
  {
    if events == [] then []
    else (if events[0].creditApplicationId == id then [] else [events[0]]) + EventsWithout(events[1..], id)
  }

  /** The pagination block of the listing. */
  datatype Pagination = Pagination(page: int, perPage: nat, totalCount: nat, totalPages: nat)

  /** The statuses of one country, with a count for every status of the enum. */
  datatype StatusTally = StatusTally(status: string, count: nat)
  datatype CountryCounts = CountryCounts(code: string, tallies: seq<StatusTally>)

  /** `countries` of `status_counts_by_country`. */
  function CountriesFor(filter: Option<string>): seq<string>
  {
    if PresentText(filter) then [filter.value] else ["mexico", "portugal"]
  }

  /** `where(country: country).group(:status).count[status] || 0`. */
  function StatusCount(apps: map<Key, Application>, country: string, s: Status): nat
  {
    |StatusKeys(apps, country, s)|
  }

  function CountryKeys(apps: map<Key, Application>, country: string): set<Key>
  {
    set k | k in apps && k.country == country
  }

  function SumCounts(apps: map<Key, Application>, country: string, ss: seq<Status>): nat
  {
    if ss == [] then 0 else StatusCount(apps, country, ss[0]) + SumCounts(apps, country, ss[1..])
  }

  function Tallies(apps: map<Key, Application>, country: string): (t: seq<StatusTally>)
    ensures |t| == |Statuses|
  {
    seq(|Statuses|, j requires 0 <= j < |Statuses| => StatusTally(StatusName(Statuses[j]), StatusCount(apps, country, Statuses[j])))
  }

  function TallyTotal(t: seq<StatusTally>): nat
  {
    if t == [] then 0 else t[0].count + TallyTotal(t[1..])
  }

  function StatusKeys(apps: map<Key, Application>, country: string, s: Status): set<Key>
  {
    set k | k in apps && k.country == country && apps[k].status == s
  }

  lemma StatusKeysStep(apps: map<Key, Application>, k0: Key, country: string, s: Status)
    requires k0 in apps
    ensures k0 !in StatusKeys(apps - {k0}, country, s)
    ensures StatusKeys(apps, country, s)
      == StatusKeys(apps - {k0}, country, s) + (if k0.country == country && apps[k0].status == s then {k0} else {})
  {
  }

  lemma StatusCountStep(apps: map<Key, Application>, k0: Key, country: string, s: Status)
    requires k0 in apps
    ensures StatusCount(apps, country, s)
      == StatusCount(apps - {k0}, country, s) + (if k0.country == country && apps[k0].status == s then 1 else 0)
  {
    StatusKeysStep(apps, k0, country, s);
    assert StatusCount(apps, country, s) == |StatusKeys(apps, country, s)|;
    assert StatusCount(apps - {k0}, country, s) == |StatusKeys(apps - {k0}, country, s)|;
  }

  lemma CountryKeysStep(apps: map<Key, Application>, k0: Key, country: string)
    requires k0 in apps
    ensures |CountryKeys(apps, country)| == |CountryKeys(apps - {k0}, country)| + (if k0.country == country then 1 else 0)
  {
    if k0.country == country {
      assert CountryKeys(apps, country) == CountryKeys(apps - {k0}, country) + {k0};
    } else {
      assert CountryKeys(apps, country) == CountryKeys(apps - {k0}, country);
    }
  }

  lemma {:induction false} SumCountsStep(apps: map<Key, Application>, k0: Key, country: string, ss: seq<Status>)
    requires k0 in apps
    requires forall i, j :: 0 <= i < j < |ss| ==> ss[i] != ss[j]
    ensures SumCounts(apps, country, ss)
      == SumCounts(apps - {k0}, country, ss) + (if k0.country == country && apps[k0].status in ss then 1 else 0)
  {
    if ss != [] {
      StatusCountStep(apps, k0, country, ss[0]);
      SumCountsStep(apps, k0, country, ss[1..]);
      assert apps[k0].status in ss <==> apps[k0].status == ss[0] || apps[k0].status in ss[1..];
      assert ss[0] !in ss[1..];
    }
  }

  /** The tallies of a country count each of its applications exactly once. */
  lemma {:induction false} TalliesCoverCountry(apps: map<Key, Application>, country: string)
    ensures SumCounts(apps, country, Statuses) == |CountryKeys(apps, country)|
    decreases |apps|
  {
    if apps == map[] {
      assert CountryKeys(apps, country) == {};
      SumCountsEmpty(apps, country, Statuses);
    } else {
      var k0 :| k0 in apps;
      StatusesComplete();
      SumCountsStep(apps, k0, country, Statuses);
      CountryKeysStep(apps, k0, country);
      assert |apps - {k0}| < |apps| by {
        assert (apps - {k0}).Keys + {k0} == apps.Keys;
      }
      TalliesCoverCountry(apps - {k0}, country);
    }
  }

  lemma {:induction false} SumCountsEmpty(apps: map<Key, Application>, country: string, ss: seq<Status>)
    requires apps == map[]
    ensures SumCounts(apps, country, ss) == 0
  {
    if ss != [] {
      assert StatusCount(apps, country, ss[0]) == 0;
      SumCountsEmpty(apps, country, ss[1..]);
    }
  }

  lemma {:induction false} TallyTotalIsSum(apps: map<Key, Application>, country: string, n: nat)
    requires n <= |Statuses|
    ensures TallyTotal(Tallies(apps, country)[n..]) == SumCounts(apps, country, Statuses[n..])
    decreases |Statuses| - n
  {
    if n < |Statuses| {
      assert Tallies(apps, country)[n..][1..] == Tallies(apps, country)[n + 1..];
      assert Statuses[n..][1..] == Statuses[n + 1..];
      TallyTotalIsSum(apps, country, n + 1);
    } else {
      assert Statuses[n..] == [];
    }
  }

  /** The counts of one country add up to the number of its applications, whatever their statuses. */
  lemma TalliesTotal(apps: map<Key, Application>, country: string)
    ensures TallyTotal(Tallies(apps, country)) == |CountryKeys(apps, country)|
  {
    TallyTotalIsSum(apps, country, 0);
    assert Tallies(apps, country)[0..] == Tallies(apps, country);
    assert Statuses[0..] == Statuses;
    TalliesCoverCountry(apps, country);
  }

  /**
    The `credit_applications` table with what its writes touch: the audit
    events, the count cache and the notification cable.
  */
  class Database {
    var apps: map<Key, Application>
    var nextId: nat
    var events: seq<Event>
    var cache: map<string, nat>
    const cable: Cable

    ghost predicate Valid()
      reads this
    {
      Stored(apps, nextId) && CacheCoherent(apps, cache)
    }

    constructor(cable: Cable)
      ensures Valid()
      ensures apps == map[] && nextId == 1 && events == [] && cache == map[] && this.cable == cable
    {
      apps := map[];
      nextId := 1;
      events := [];
      cache := map[];
      this.cable := cable;
    }

    /** `CreditApplication.find(id)`: the partitions are searched in turn; ids are unique across them. */
    function Find(id: int): (r: Option<Key>)
      reads this
      requires Valid()
      ensures r.Some? ==> r.value in apps && r.value.id == id
      ensures r.None? ==> forall k :: k in apps ==> k.id != id
    {
      if Key(id, "mexico") in apps then Some(Key(id, "mexico"))
      else if Key(id, "portugal") in apps then Some(Key(id, "portugal"))
      else None
    }

    /** `CreditApplication.new(attributes).save`, the INSERT with its trigger and `after_create`. */
    method Create(n: NewApplication) returns (r: SaveOutcome)
      requires Valid()
      modifies this
      ensures Valid()
      ensures CreateErrors(n) != [] ==>
        r == Invalid(CreateErrors(n)) && apps == old(apps) && events == old(events) && cache == old(cache) && nextId == old(nextId)
      ensures CreateErrors(n) == [] && !HasPartition(n.country.value) ==>
        r == Raised(NoPartition(n.country.value)) && apps == old(apps) && events == old(events) && cache == old(cache)
      ensures CreateErrors(n) == [] && HasPartition(n.country.value) && n.status.None? ==>
        r == Raised(NotNullViolation("status")) && apps == old(apps) && events == old(events) && cache == old(cache)
      ensures CreateErrors(n) == [] && HasPartition(n.country.value) && n.status.Some? ==>
        var a := Built(n, old(nextId));
        r == Saved(KeyOf(a)) && KeyOf(a) !in old(apps) && apps == old(apps)[KeyOf(a) := a]
        && events == old(events) + [EventFor(Insert(TupleOf(a)))]
        && cache == Without(old(cache), InvalidatedKeys(a.country, StatusName(a.status), ChangedFrom(None), ChangedFrom(None)))
      ensures nextId == old(nextId) + (if CreateErrors(n) == [] then 1 else 0)
    {
      var errors := CreateErrors(n);
      if errors != [] {
        return Invalid(errors);
      }
      var id := nextId;
      StoredLater(apps, id);
      if !HasPartition(n.country.value) {
        nextId := id + 1;
        assert Stored(apps, nextId) && CacheCoherent(apps, cache);
        return Raised(NoPartition(n.country.value));
      }
      if n.status.None? {
        nextId := id + 1;
        assert Stored(apps, nextId) && CacheCoherent(apps, cache);
        return Raised(NotNullViolation("status"));
      }
      var key := InsertNew(n);
      r := Saved(key);
    }

    /** The INSERT of a new record that passed validation, under the next id of the sequence. */
    method InsertNew(n: NewApplication) returns (key: Key)
      requires Valid() && CreateErrors(n) == [] && HasPartition(n.country.value) && n.status.Some?
      modifies this
      ensures Valid() && nextId == old(nextId) + 1
      ensures var a := Built(n, old(nextId));
        key == KeyOf(a) && key !in old(apps) && apps == old(apps)[key := a]
        && events == old(events) + [EventFor(Insert(TupleOf(a)))]
        && cache == Without(old(cache), InvalidatedKeys(a.country, StatusName(a.status), ChangedFrom(None), ChangedFrom(None)))
    {
      var a := Application(nextId, n.country.value, n.fullName.value, n.requestedAmount.cents, n.applicationDate,
        n.status.value, None, JNull, [], None, n.userId);
      assert a == Built(n, nextId);
      BuiltValid(n, nextId);
      var e := LogChange(Insert(TupleOf(a)));
      var keys := InvalidatedKeys(a.country, StatusName(a.status), ChangedFrom(None), ChangedFrom(None));
      apps, events, cache, nextId := apps[KeyOf(a) := a], events + [e], Without(cache, keys), nextId + 1;
      InsertKeepsInvariant(old(apps), old(cache), a, apps, cache);
      key := KeyOf(a);
    }

    /**
      `save` of a stored record: nothing happens unless an attribute changed;
      then the UPDATE is logged, and a status change notifies the owner and
      invalidates the counts.
    */
    method Save(a: Application) returns (errors: seq<string>)
      requires Valid() && KeyOf(a) in apps && a.identityDocument == apps[KeyOf(a)].identityDocument
      modifies this, cable
      ensures Valid() && nextId == old(nextId) && cable.failing == old(cable.failing)
      ensures errors == RecordErrors(a)
      ensures errors != [] ==>
        apps == old(apps) && events == old(events) && cache == old(cache) && cable.broadcasts == old(cable.broadcasts)
      ensures errors == [] ==>
        var before := old(apps[KeyOf(a)]);
        apps == old(apps)[KeyOf(a) := a]
        && events == old(events) + ChangeEvents(before, a)
        && cable.broadcasts == old(cable.broadcasts) + Notified(before, a, old(cable.failing))
        && cache == Without(old(cache), SaveKeys(before, a))
    {
      errors := RecordErrors(a);
      if errors == [] {
        Commit(a);
      }
    }

    /** The part of `save` after the validations passed. */
    method Commit(a: Application)
      requires Valid() && KeyOf(a) in apps && a.identityDocument == apps[KeyOf(a)].identityDocument
      requires ValidRecord(a)
      modifies this, cable
      ensures Valid() && nextId == old(nextId) && cable.failing == old(cable.failing)
      ensures apps == old(apps)[KeyOf(a) := a]
      ensures events == old(events) + ChangeEvents(old(apps[KeyOf(a)]), a)
      ensures cable.broadcasts == old(cable.broadcasts) + Notified(old(apps[KeyOf(a)]), a, old(cable.failing))
      ensures cache == Without(old(cache), SaveKeys(old(apps[KeyOf(a)]), a))
    {
      var before := apps[KeyOf(a)];
      if a == before {
        assert apps[KeyOf(a) := a] == apps;
        assert Without(cache, []) == cache;
        return;
      }
      CommitChange(a);
    }

    /** A save that changes the record: the UPDATE, then the status notification when the status moved. */
    method CommitChange(a: Application)
      requires Valid() && KeyOf(a) in apps && ValidRecord(a)
      modifies this, cable
      ensures Valid() && nextId == old(nextId) && cable.failing == old(cable.failing)
      ensures apps == old(apps)[KeyOf(a) := a]
      ensures events == old(events) + [EventFor(Update(TupleOf(old(apps[KeyOf(a)])), TupleOf(a)))]
      ensures cable.broadcasts == old(cable.broadcasts) + Notified(old(apps[KeyOf(a)]), a, old(cable.failing))
      ensures cache == Without(old(cache), SaveKeys(old(apps[KeyOf(a)]), a))
    {
      var before := apps[KeyOf(a)];
      ApplyUpdate(a);
      if before.status != a.status {
        NotifyStatusChange(cable, a);
      }
    }

    /** The UPDATE of a valid, changed record with its trigger and the count invalidation. */
    method ApplyUpdate(a: Application)
      requires Valid() && KeyOf(a) in apps && ValidRecord(a)
      modifies this
      ensures Valid() && nextId == old(nextId)
      ensures apps == old(apps)[KeyOf(a) := a]
      ensures events == old(events) + [EventFor(Update(TupleOf(old(apps[KeyOf(a)])), TupleOf(a)))]
      ensures cache == Without(old(cache), SaveKeys(old(apps[KeyOf(a)]), a))
    {
      var key := KeyOf(a);
      var before := apps[key];
      SaveKeepsInvariant(apps, nextId, cache, a);
      cache := Without(cache, SaveKeys(before, a));
      apps := apps[key := a];
      var e := LogChange(Update(TupleOf(before), TupleOf(a)));
      events := events + [e];
    }

    /**
      `identity_document.attach` on a saved record. The attachment lives
      outside the row; creating it touches the record (ActiveStorage's
      `touch_attachment_records`), an UPDATE of `updated_at` alone, which
      the trigger logs. No status or country changes, so no count is
      invalidated and nobody is notified.
    */
    method Attach(key: Key, doc: Document)
      requires Valid() && key in apps
      modifies this
      ensures Valid() && nextId == old(nextId) && cache == old(cache)
      ensures apps == old(apps)[key := old(apps[key]).(identityDocument := Some(doc))]
      ensures events == old(events) + [EventFor(Update(TupleOf(old(apps[key])), TupleOf(apps[key])))]
    {
      AttachKeepsInvariant(apps, nextId, cache, key, doc);
      AttachKeepsRow(apps[key], doc);
      apps := apps[key := apps[key].(identityDocument := Some(doc))];
      Touch(key);
    }

    /** `touch`: an UPDATE of `updated_at` alone, which the trigger logs; no modelled column changes. */
    method Touch(key: Key)
      requires Valid() && key in apps
      modifies this
      ensures Valid() && apps == old(apps) && nextId == old(nextId) && cache == old(cache)
      ensures events == old(events) + [EventFor(Update(TupleOf(apps[key]), TupleOf(apps[key])))]
    {
      var e := LogChange(Update(TupleOf(apps[key]), TupleOf(apps[key])));
      events := events + [e];
    }

    /** `destroy`: the events of the application go first, then the DELETE logs its own event and the counts are invalidated. */
    method Destroy(key: Key)
      requires Valid() && key in apps
      modifies this
      ensures Valid() && nextId == old(nextId)
      ensures apps == old(apps) - {key}
      ensures events == EventsWithout(old(events), key.id) + [EventFor(Delete(TupleOf(old(apps[key]))))]
      ensures cache == Without(old(cache), InvalidatedKeys(key.country, StatusName(old(apps[key]).status), Unchanged, Unchanged))
    {
      var a := apps[key];
      DestroyKeepsInvariant(apps, nextId, cache, key);
      var e := LogChange(Delete(TupleOf(a)));
      apps, cache, events := apps - {key},
        Without(cache, InvalidatedKeys(key.country, StatusName(a.status), Unchanged, Unchanged)),
        EventsWithout(events, key.id) + [e];
    }

    /**
      `filtered_and_paginated` with the corrected cache key: the count is read
      from the cache, or counted and written there on a miss.
    */
    method FilteredAndPaginated(country: Option<string>, status: Option<string>, page: Option<string>, perPage: nat)
      returns (p: Pagination, offset: int)
      requires Valid() && perPage > 0
      modifies this
      ensures Valid() && apps == old(apps) && events == old(events) && nextId == old(nextId)
      ensures p.totalCount == CountMatching(apps, country, status)
      ensures p.page == PageNumber(page) && p.perPage == perPage && offset == Offset(p.page, perPage)
      ensures p.totalPages == TotalPages(p.totalCount, perPage)
      ensures ListingCacheKey(country, status).None? ==> cache == old(cache)
      ensures ListingCacheKey(country, status).Some? ==> cache == old(cache)[ListingCacheKey(country, status).value := p.totalCount]
    {
      var n := PageNumber(page);
      offset := Offset(n, perPage);
      var key := ListingCacheKey(country, status);
      var total: nat;
      if key.Some? && key.value in cache {
        total := cache[key.value];
        assert cache[key.value := total] == cache;
      } else {
        total := |MatchingKeys(apps, country, status)|;
        if key.Some? {
          forall country2: Option<string>, status2: Option<string> | ListingCacheKey(country2, status2) == key
            ensures total == CountMatching(apps, country2, status2)
          {
            ListingKeyInjective(country, status, country2, status2);
            SameSelectionSameCount(apps, country, status, country2, status2);
          }
          cache := cache[key.value := total];
        }
      }
      p := Pagination(n, perPage, total, TotalPages(total, perPage));
    }

    /** `status_counts_by_country`: for each country, a tally of every status of the enum. */
    method StatusCountsByCountry(filter: Option<string>) returns (r: seq<CountryCounts>)
      ensures |r| == |CountriesFor(filter)|
      ensures forall i :: 0 <= i < |r| ==>
        r[i].code == CountryToCode(CountriesFor(filter)[i]) && r[i].tallies == Tallies(apps, CountriesFor(filter)[i])
    {
      var countries := CountriesFor(filter);
      r := [];
      var i := 0;
      while i < |countries|
        invariant 0 <= i <= |countries| && |r| == i
        invariant forall m :: 0 <= m < i ==> r[m].code == CountryToCode(countries[m]) && r[m].tallies == Tallies(apps, countries[m])
      {
        var country := countries[i];
        var tallies: seq<StatusTally> := [];
        var j := 0;
        while j < |Statuses|
          invariant 0 <= j <= |Statuses| && |tallies| == j
          invariant forall m :: 0 <= m < j ==> tallies[m] == StatusTally(StatusName(Statuses[m]), StatusCount(apps, country, Statuses[m]))
        {
          var s := Statuses[j];
          var count := |set k | k in apps && k.country == country && apps[k].status == s|;
          tallies := tallies + [StatusTally(StatusName(s), count)];
          j := j + 1;
        }
        r := r + [CountryCounts(CountryToCode(country), tallies)];
        i := i + 1;
      }
    }
  }

  /**
    `update` of a stored record that sets only `validation_result` and
    `status`, the attributes no validation reads: it always saves, since a
    stored record is valid.
  */
  method SaveStored(db: Database, k: Key, b: Application)
    requires db.Valid() && k in db.apps
    requires b.(validationResult := db.apps[k].validationResult, status := db.apps[k].status) == db.apps[k]
    modifies db, db.cable
    ensures db.Valid() && db.nextId == old(db.nextId) && db.cable.failing == old(db.cable.failing)
    ensures db.apps == old(db.apps)[k := b]
    ensures db.events == old(db.events) + ChangeEvents(old(db.apps[k]), b)
    ensures db.cable.broadcasts == old(db.cable.broadcasts) + Notified(old(db.apps[k]), b, old(db.cable.failing))
    ensures db.cache == Without(old(db.cache), SaveKeys(old(db.apps[k]), b))
  {
    assert KeyOf(db.apps[k]) == k && ValidRecord(db.apps[k]);
    assert KeyOf(b) == k && ValidRecord(b);
    var errors := db.Save(b);
  }

  /**
    `save!` of a stored record whose banking document or income was
    reassigned: the status does not move, so no notification is sent and no
    count is invalidated; an invalid income leaves everything as it was.
  */
  method SaveBanking(db: Database, k: Key, b: Application) returns (errors: seq<string>)
    requires db.Valid() && k in db.apps
    requires b.(bankingData := db.apps[k].bankingData, monthlyIncome := db.apps[k].monthlyIncome) == db.apps[k]
    modifies db, db.cable
    ensures db.Valid() && db.nextId == old(db.nextId) && db.cable.failing == old(db.cable.failing)
    ensures db.cache == old(db.cache) && db.cable.broadcasts == old(db.cable.broadcasts)
    ensures errors == RecordErrors(b)
    ensures errors != [] ==> db.apps == old(db.apps) && db.events == old(db.events)
    ensures errors == [] ==> db.apps == old(db.apps)[k := b] && db.events == old(db.events) + ChangeEvents(old(db.apps[k]), b)
  {
    assert KeyOf(db.apps[k]) == k && KeyOf(b) == k;
    errors := db.Save(b);
    assert SaveKeys(old(db.apps[k]), b) == [] && Notified(old(db.apps[k]), b, old(db.cable.failing)) == [];
    assert Without(old(db.cache), []) == old(db.cache);
  }

  // ---------------------------------------------------------------- proof helpers

  /** A second write to the same key replaces the first. */
  lemma UpdateTwice<K, V>(m: map<K, V>, k: K, v1: V, v2: V)
    ensures m[k := v1][k := v2] == m[k := v2]
  {
  }

  /** Appending twice is appending once, the two tails joined. */
  lemma AppendTwice<T>(s: seq<T>, t: seq<T>, u: seq<T>)
    ensures s + t + u == s + (t + u)
  {
  }
}
