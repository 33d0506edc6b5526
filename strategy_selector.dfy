/** `CreditApplicationStrategySelector`: pick the strategy registered for the application's country and run it. */
module StrategySelector {
  import opened Wrappers
  import opened Text
  import opened Faults
  import opened Jobs
  import opened Records
  import opened Strategies

  /** The keys of `STRATEGIES`, in order. */
  const Countries: seq<string> := ["mexico", "portugal"]

  const MessagePrefix: string := "No se encontró estrategia para el país: "

  function ErrorMessage(country: string): string
  {
    MessagePrefix + country + ". Países disponibles: " + Join(Countries, ", ")
  }

  /**
    `STRATEGIES[credit_application.country&.downcase]`: the lookup is on the
    lower-cased country; a missing country interpolates as the empty string
    in the error.
  */
  function StrategyFor(country: Option<string>): (r: Result<Strategy, Fault>)
    ensures r.Success? <==> country.Some? && Downcase(country.value) in Countries
    ensures r.Success? ==> CountryOf(r.value) == Downcase(country.value)
    ensures r.Failure? ==> r.error == UnknownStrategy(ErrorMessage(if country.Some? then Downcase(country.value) else ""))
  {
    match country
    case None => Failure(UnknownStrategy(ErrorMessage("")))
    case Some(c) =>
      var key := Downcase(c);
      if key == "mexico" then Success(MexicoCreditStrategy)
      else if key == "portugal" then Success(PortugalCreditStrategy)
      else Failure(UnknownStrategy(ErrorMessage(key)))
  }

  /** The lookup ignores case: `"Mexico"` and `"PORTUGAL"` select their strategies. */
  lemma StrategyForIgnoresCase(c: string)
    ensures StrategyFor(Some(Upcase(c))) == StrategyFor(Some(c))
    ensures StrategyFor(Some("Mexico")) == Success(MexicoCreditStrategy)
    ensures StrategyFor(Some("PORTUGAL")) == Success(PortugalCreditStrategy)
  {
    DowncaseUpcase(c);
    assert Downcase("Mexico") == "mexico";
    assert Downcase("PORTUGAL") == "portugal";
  }

  /** Every country a record can be stored under has a strategy, and it is that country's. */
  lemma StoredCountryHasStrategy(country: string)
    requires HasPartition(country)
    ensures StrategyFor(Some(country)).Success? && CountryOf(StrategyFor(Some(country)).value) == country
  {
    assert Downcase("mexico") == "mexico";
    assert Downcase("portugal") == "portugal";
  }

  /** The error names the country it was given and lists the countries that are available. */
  lemma ErrorMessageNamesCountries(country: string)
    ensures var m := ErrorMessage(country);
      OccursAt(m, country, |MessagePrefix|) && OccursAt(m, "mexico, portugal", |m| - 16)
  {
    var m := ErrorMessage(country);
    assert Join(Countries, ", ") == "mexico, portugal";
    assert m[|MessagePrefix|..|MessagePrefix| + |country|] == country;
    assert m[|m| - 16..] == "mexico, portugal";
  }

  /**
    `select(credit_application)`: raise `ArgumentError` for a country
    without a strategy, enqueuing nothing; otherwise run the strategy.
  */
  method Select(queue: JobQueue, a: Application) returns (r: Result<ProcessResult, Fault>)
    modifies queue
    ensures StrategyFor(Some(a.country)).Failure? ==>
      r == Failure(StrategyFor(Some(a.country)).error) && queue.jobs == old(queue.jobs)
    ensures StrategyFor(Some(a.country)).Success? ==>
      var s := StrategyFor(Some(a.country)).value;
      r == Success(Outcome(s)) && queue.jobs == old(queue.jobs) + ScheduledJobs(s, a.id)
  {
    var strategy := StrategyFor(Some(a.country));
    if strategy.Failure? {
      return Failure(strategy.error);
    }
    var result := Process(strategy.value, queue, a.id);
    r := Success(result);
  }
}
