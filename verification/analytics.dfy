/** The dashboard's click analytics (pages/dashboard.js).

    `viewAnalytics` loads the click records of one short URL, ordered by
    `clicked_at` ascending, and folds them into a per-day series, a
    per-country breakdown and a total. `deleteUrl` clears the selected URL
    and its analytics when the deleted URL is the selected one. The database
    queries are inputs here: a query that fails is `None`. */
module Analytics {
  import opened Wrappers
  import opened Tally
  import opened LexOrder

  /** One row of the `clicks` table: the ISO timestamp of the click and the
      country, where `None` is a null country. */
  datatype Click = Click(clickedAt: string, country: Option<string>)

  /** The `{ daily, country, totalClicks }` object handed to the charts. */
  datatype Summary = Summary(daily: seq<Bucket>, country: seq<Bucket>, totalClicks: nat)

  /** A row of the `urls` table, as far as the dashboard state uses it: the
      rules compare rows by id. */
  datatype Url = Url(id: string)

  /** The two pieces of dashboard state these rules touch: the selected URL
      (`null` is `None`) and the analytics data (the initial empty array is
      `None`). */
  datatype Dashboard = Dashboard(selected: Option<Url>, analytics: Option<Summary>)

  /** The bucket for clicks without a usable country. */
  const UnknownCountry: string := "Unknown"

  /** The day of a timestamp: everything before the first `T`, which for an
      ISO timestamp is its `YYYY-MM-DD` date. A timestamp without a `T` is
      its own day. */
  function DayKey(ts: string): (d: string)
    ensures |d| <= |ts| && d == ts[..|d|]
    ensures 'T' !in d
    ensures |d| < |ts| ==> ts[|d|] == 'T'
  {
    if |ts| == 0 || ts[0] == 'T' then "" else [ts[0]] + DayKey(ts[1..])
  }

  /** The country bucket of a click: a null or empty country is falsy in
      JavaScript and goes to `"Unknown"`. */
  function CountryKey(c: Option<string>): string
  {
    if c.None? || c.value == "" then UnknownCountry else c.value
  }

  function DayKeys(clicks: seq<Click>): (ks: seq<string>)
    ensures |ks| == |clicks|
  {
    seq(|clicks|, i requires 0 <= i < |clicks| => DayKey(clicks[i].clickedAt))
  }

  function CountryKeys(clicks: seq<Click>): (ks: seq<string>)
    ensures |ks| == |clicks|
  {
    seq(|clicks|, i requires 0 <= i < |clicks| => CountryKey(clicks[i].country))
  }

  /** The raw country column of the click records. */
  function Countries(clicks: seq<Click>): (cs: seq<Option<string>>)
    ensures |cs| == |clicks|
  {
    seq(|clicks|, i requires 0 <= i < |clicks| => clicks[i].country)
  }

  /** The analytics summary of a list of click records. Both breakdowns
      account for every click exactly once, list each key once, and never
      report a zero count; no clicks give empty breakdowns and a zero
      total. */
  function Summarize(clicks: seq<Click>): (a: Summary)
    ensures a.totalClicks == |clicks|
    ensures Total(a.daily) == a.totalClicks
    ensures Total(a.country) == a.totalClicks
    ensures DistinctKeys(a.daily) && AllPositive(a.daily)
    ensures DistinctKeys(a.country) && AllPositive(a.country)
    ensures |clicks| == 0 ==> a.daily == [] && a.country == []
  {
    CountTotal(DayKeys(clicks));
    CountTotal(CountryKeys(clicks));
    CountWellFormed(DayKeys(clicks));
    CountWellFormed(CountryKeys(clicks));
    Summary(Count(DayKeys(clicks)), Count(CountryKeys(clicks)), |clicks|)
  }

  /** The `forEach` loop of `viewAnalytics`: one pass over the clicks,
      bumping the day bucket and the country bucket of each. */
  method Aggregate(clicks: seq<Click>) returns (a: Summary)
    ensures a == Summarize(clicks)
  {
    var daily: seq<Bucket> := [];
    var country: seq<Bucket> := [];
    var i := 0;
    while i < |clicks|
      invariant 0 <= i <= |clicks|
      invariant daily == Count(DayKeys(clicks[..i]))
      invariant country == Count(CountryKeys(clicks[..i]))
    {
      var date := DayKey(clicks[i].clickedAt);
      var place := CountryKey(clicks[i].country);
      assert DayKeys(clicks[..i + 1]) == DayKeys(clicks[..i]) + [date];
      assert CountryKeys(clicks[..i + 1]) == CountryKeys(clicks[..i]) + [place];
      CountSnoc(DayKeys(clicks[..i]), date);
      CountSnoc(CountryKeys(clicks[..i]), place);
      daily := Bump(daily, date);
      country := Bump(country, place);
      i := i + 1;
    }
    assert clicks[..i] == clicks;
    a := Summary(daily, country, |clicks|);
  }

  /** Each day's count is the number of clicks on that day, and a day is
      listed exactly when some click falls on it. */
  lemma DailyCounts(clicks: seq<Click>, day: string)
    ensures CountOf(Summarize(clicks).daily, day) == multiset(DayKeys(clicks))[day]
    ensures day in Keys(Summarize(clicks).daily) <==> day in DayKeys(clicks)
  {
    CountMatchesOccurrences(DayKeys(clicks), day);
    CountWellFormed(DayKeys(clicks));
  }

  /** How the country column maps onto buckets: a missing or empty country
      and the literal country `"Unknown"` share the `"Unknown"` bucket, the
      empty string never gets a bucket of its own, and every other country is
      counted under its own name. */
  lemma CountryCounts(clicks: seq<Click>, k: string)
    ensures CountOf(Summarize(clicks).country, k) == Landing(multiset(Countries(clicks)), k)
  {
    CountMatchesOccurrences(CountryKeys(clicks), k);
    CountryKeyMultiplicity(clicks, k);
  }

  /** How many of the country values in `m` land in bucket `k`. */
  function Landing(m: multiset<Option<string>>, k: string): nat
  {
    if k == UnknownCountry then m[None] + m[Some("")] + m[Some(UnknownCountry)]
    else if k == "" then 0
    else m[Some(k)]
  }

  lemma {:induction false} CountryKeyMultiplicity(clicks: seq<Click>, k: string)
    ensures multiset(CountryKeys(clicks))[k] == Landing(multiset(Countries(clicks)), k)
  {
    if |clicks| > 0 {
      var n := |clicks| - 1;
      var prefix := clicks[..n];
      var c := clicks[n].country;
      CountryKeyMultiplicity(prefix, k);
      assert CountryKeys(clicks) == CountryKeys(prefix) + [CountryKey(c)];
      assert Countries(clicks) == Countries(prefix) + [c];
      LandingStep(multiset(Countries(prefix)), c, k);
    }
  }

  /** One more country value adds one to exactly the bucket it lands in. */
  lemma LandingStep(m: multiset<Option<string>>, c: Option<string>, k: string)
    ensures Landing(m + multiset{c}, k) == Landing(m, k) + (if CountryKey(c) == k then 1 else 0)
  {
  }

  /** A timestamp in the ISO form `YYYY-MM-DDT...`: ten characters of date,
      none of them `T`, then the `T`. */
  predicate IsIsoTimestamp(ts: string)
  {
    |ts| > 10 && ts[10] == 'T' && 'T' !in ts[..10]
  }

  /** The day of a timestamp whose first `T` is at position `n` is its
      first `n` characters. */
  lemma DayKeyAt(ts: string, n: nat)
    requires n < |ts| && ts[n] == 'T' && 'T' !in ts[..n]
    ensures DayKey(ts) == ts[..n]
  {
  }

  /** Clicks arrive ordered by `clicked_at` ascending; since the day series
      lists days in order of first appearance, it comes out in strictly
      ascending date order. */
  lemma DailyAscending(clicks: seq<Click>)
    requires forall i :: 0 <= i < |clicks| ==> IsIsoTimestamp(clicks[i].clickedAt)
    requires forall i, j :: 0 <= i < j < |clicks| ==> LexLe(clicks[i].clickedAt, clicks[j].clickedAt)
    ensures StrictlyAscending(Keys(Summarize(clicks).daily))
  {
    var keys := DayKeys(clicks);
    var r := Summarize(clicks).daily;
    CountFirstAppearanceOrder(keys);
    forall i, j | 0 <= i < j < |r| ensures LexLt(Keys(r)[i], Keys(r)[j]) {
      var fi := FirstIndex(keys, r[i].key);
      var fj := FirstIndex(keys, r[j].key);
      DayKeyAt(clicks[fi].clickedAt, 10);
      DayKeyAt(clicks[fj].clickedAt, 10);
      PrefixMonotone(clicks[fi].clickedAt, clicks[fj].clickedAt, 10);
    }
  }

  /** Every click's timestamp is accepted by `new Date(...)`, so that
      `toISOString` does not throw on it. */
  predicate AllDatesValid(clicks: seq<Click>, validDate: string -> bool)
  {
    forall i :: 0 <= i < |clicks| ==> validDate(clicks[i].clickedAt)
  }

  /** Opening the analytics of `url`: the selection changes at once. The
      analytics are replaced by the summary of the query result, unless the
      query fails or some timestamp is an invalid date (`toISOString` throws
      inside the loop); then the update is abandoned and the analytics stay
      as they were. `validDate` says which timestamps `new Date` accepts. */
  function ViewAnalytics(s: Dashboard, url: Url, query: Option<seq<Click>>, validDate: string -> bool): (r: Dashboard)
    ensures r.selected == Some(url)
    ensures query.Some? && AllDatesValid(query.value, validDate) ==>
      r.analytics == Some(Summarize(query.value))
    ensures query.None? || !AllDatesValid(query.value, validDate) ==> r.analytics == s.analytics
  {
    var shown :=
      if query.Some? && AllDatesValid(query.value, validDate) then Some(Summarize(query.value))
      else s.analytics;
    Dashboard(Some(url), shown)
  }

  /** Deleting the URL with id `id`: `confirmed` is the user's answer to the
      confirmation prompt and `deleted` whether the database delete
      succeeded. The state is either kept or fully cleared, and it is cleared
      exactly when a confirmed, successful delete hits the selected URL. */
  function DeleteUrl(s: Dashboard, id: string, confirmed: bool, deleted: bool): (r: Dashboard)
    ensures r == s || r == Dashboard(None, None)
    ensures r != s <==> confirmed && deleted && s.selected.Some? && s.selected.value.id == id
  {
    if !confirmed || !deleted then s
    else if s.selected.Some? && s.selected.value.id == id then Dashboard(None, None)
    else s
  }

  /** Deleting the URL whose analytics are open clears them; deleting any
      other URL leaves that URL selected with its analytics. */
  lemma ViewThenDelete(s: Dashboard, url: Url, query: Option<seq<Click>>, validDate: string -> bool, id: string)
    ensures var v := ViewAnalytics(s, url, query, validDate);
      DeleteUrl(v, id, true, true) == (if id == url.id then Dashboard(None, None) else v)
  {
  }
}
