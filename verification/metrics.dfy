/**
 * Token usage accounting (backend/src/metrics.rs). Counts are `i64` and saturate; costs are exact `i128` nano-dollars.
 * A day is its number. Dollars, the only floating point, are left out.
 */
module UsageMetrics {
  import opened Wrappers

  const I64_MAX := 0x7FFF_FFFF_FFFF_FFFF
  const I128_MAX := 0x7FFF_FFFF_FFFF_FFFF_FFFF_FFFF_FFFF_FFFF
  const DAILY_WINDOW_DAYS := 14

  // ---- Accumulating ----------------------------------------------------------

  datatype Usage = Usage(standardInput: int, cacheRead: int, cacheWrite: int, cacheWrite1h: int, output: int)

  const NO_USAGE := Usage(0, 0, 0, 0, 0)

  /** `i64::saturating_add` */
  function SatAdd(a: int, b: int): int {
    if a + b > I64_MAX then I64_MAX else if a + b < -I64_MAX - 1 then -I64_MAX - 1 else a + b
  }

  /** A saturated sum fits 64 bits, and nothing that does is nearer to the exact one. */
  lemma SatAddIsNearest(a: int, b: int, x: int)
    requires -0x8000_0000_0000_0000 <= x < 0x8000_0000_0000_0000
    ensures -0x8000_0000_0000_0000 <= SatAdd(a, b) < 0x8000_0000_0000_0000
    ensures (if SatAdd(a, b) < a + b then a + b - SatAdd(a, b) else SatAdd(a, b) - (a + b))
         <= if x < a + b then a + b - x else x - (a + b)
  {
  }

  /** `UsageComponents::total` */
  function Total(u: Usage): int {
    SatAdd(SatAdd(SatAdd(SatAdd(u.standardInput, u.cacheRead), u.cacheWrite), u.cacheWrite1h), u.output)
  }

  /** Nano-dollar rates per token. */
  datatype CatalogPrice = CatalogPrice(input: nat, cachedInput: nat, cacheWrite: nat, cacheWrite1h: nat, output: nat)

  /** `catalog_price`: dollars per million tokens times a thousand. */
  function PriceOf(model: string): Option<CatalogPrice> {
    match model
    case "fugu" => Some(CatalogPrice(5_000, 500, 5_000, 5_000, 30_000))
    case "gpt-6.1-sol" => Some(CatalogPrice(2_000, 100, 2_500, 2_500, 10_000))
    case "gpt-6-astra" => Some(CatalogPrice(10_000, 1_000, 12_500, 12_500, 50_000))
    case "gpt-5.6-sol" => Some(CatalogPrice(4_000, 400, 5_000, 5_000, 20_000))
    case "gpt-5.6" => Some(CatalogPrice(4_000, 400, 5_000, 5_000, 20_000))
    case "gpt-5.6-terra" => Some(CatalogPrice(2_000, 200, 2_500, 2_500, 12_000))
    case "gpt-5.6-luna" => Some(CatalogPrice(200, 20, 250, 250, 1_200))
    case "claude-opus-5-5" => Some(CatalogPrice(4_000, 200, 5_000, 8_000, 20_000))
    case "claude-opus-5" => Some(CatalogPrice(5_000, 500, 6_250, 10_000, 25_000))
    case "claude-opus-4-8" => Some(CatalogPrice(5_000, 500, 6_250, 10_000, 25_000))
    case "claude-fable-5" => Some(CatalogPrice(10_000, 1_000, 12_500, 20_000, 50_000))
    case "claude-fable-5-1" => Some(CatalogPrice(10_000, 250, 12_500, 20_000, 50_000))
    case "claude-haiku-4-5" => Some(CatalogPrice(1_000, 100, 1_250, 2_000, 5_000))
    case "claude-haiku-4-5-20251001" => Some(CatalogPrice(1_000, 100, 1_250, 2_000, 5_000))
    case _ => None
  }

  function CostNanos(p: CatalogPrice, u: Usage): int {
    u.standardInput * p.input + u.cacheRead * p.cachedInput + u.cacheWrite * p.cacheWrite
    + u.cacheWrite1h * p.cacheWrite1h + u.output * p.output
  }

  /** `UsageAccumulator` */
  datatype Accumulator = Accumulator(usage: Usage, costNanos: int, unpricedTokens: int)

  const EMPTY := Accumulator(NO_USAGE, 0, 0)

  function SatAddUsage(a: Usage, b: Usage): Usage {
    Usage(SatAdd(a.standardInput, b.standardInput), SatAdd(a.cacheRead, b.cacheRead), SatAdd(a.cacheWrite, b.cacheWrite),
          SatAdd(a.cacheWrite1h, b.cacheWrite1h), SatAdd(a.output, b.output))
  }

  /** `UsageAccumulator::add` */
  function Add(acc: Accumulator, u: Usage, model: string): Accumulator {
    var price := PriceOf(model);
    Accumulator(
      SatAddUsage(acc.usage, u),
      if price.Some? then acc.costNanos + CostNanos(price.value, u) else acc.costNanos,
      if price.Some? then acc.unpricedTokens else SatAdd(acc.unpricedTokens, Total(u)))
  }

  datatype Row = Row(day: int, repo: Option<string>, agent: string, model: string, usage: Usage)

  function Accumulated(rows: seq<Row>): Accumulator {
    if rows == [] then EMPTY else Add(Accumulated(rows[..|rows| - 1]), rows[|rows| - 1].usage, rows[|rows| - 1].model)
  }

  // ---- Buckets ---------------------------------------------------------------

  /** The accumulators a report keeps. */
  datatype Bucket =
    | AllTime | Today | Last7d
    | RepoAllTime(repo: string) | RepoToday(repo: string) | RepoLast7d(repo: string)
    | Day(day: int)
    | Model(agent: string, model: string)
    | DailyWindow                                 // the fourteen days together

  function RepoName(r: Row): string {
    r.repo.GetOr("(unattributed)")
  }

  predicate InWindow(day: int, days: nat, now: int) {
    now - days < day <= now
  }

  predicate Belongs(b: Bucket, r: Row, now: int) {
    match b
    case AllTime => true
    case Today => r.day == now
    case Last7d => InWindow(r.day, 7, now)
    case RepoAllTime(repo) => RepoName(r) == repo
    case RepoToday(repo) => RepoName(r) == repo && r.day == now
    case RepoLast7d(repo) => RepoName(r) == repo && InWindow(r.day, 7, now)
    case Day(day) => r.day == day && InWindow(r.day, DAILY_WINDOW_DAYS, now)
    case Model(agent, model) => r.agent == agent && r.model == model && InWindow(r.day, DAILY_WINDOW_DAYS, now)
    case DailyWindow => InWindow(r.day, DAILY_WINDOW_DAYS, now)
  }

  function Select(rows: seq<Row>, b: Bucket, now: int): seq<Row> {
    if rows == [] then []
    else
      var rest := Select(rows[..|rows| - 1], b, now);
      if Belongs(b, rows[|rows| - 1], now) then rest + [rows[|rows| - 1]] else rest
  }

  function InBucket(rows: seq<Row>, b: Bucket, now: int): Accumulator {
    Accumulated(Select(rows, b, now))
  }

  lemma BucketStep(rows: seq<Row>, r: Row, b: Bucket, now: int)
    ensures InBucket(rows + [r], b, now)
         == if Belongs(b, r, now) then Add(InBucket(rows, b, now), r.usage, r.model) else InBucket(rows, b, now)
  {
    assert (rows + [r])[..|rows|] == rows;
    var chosen := Select(rows, b, now);
    assert (chosen + [r])[..|chosen|] == chosen;
  }

  datatype RepoAccumulators = RepoAccumulators(allTime: Accumulator, today: Accumulator, last7d: Accumulator)

  datatype ModelKey = ModelKey(agent: string, model: string)

  datatype Report = Report(
    allTime: Accumulator,
    today: Accumulator,
    last7d: Accumulator,
    repos: map<string, RepoAccumulators>,
    days: map<int, Accumulator>,
    models: map<ModelKey, Accumulator>)

  function RepoBuckets(rows: seq<Row>, repo: string, now: int): RepoAccumulators {
    RepoAccumulators(InBucket(rows, RepoAllTime(repo), now), InBucket(rows, RepoToday(repo), now),
                     InBucket(rows, RepoLast7d(repo), now))
  }

  /** Every figure of the report is the accumulation of the rows of its bucket. */
  ghost predicate Reports(rep: Report, rows: seq<Row>, now: int) {
    && rep.allTime == InBucket(rows, AllTime, now)
    && rep.today == InBucket(rows, Today, now)
    && rep.last7d == InBucket(rows, Last7d, now)
    && (forall r :: r in rows ==> RepoName(r) in rep.repos)
    && (forall repo :: repo in rep.repos ==> rep.repos[repo] == RepoBuckets(rows, repo, now))
    && (forall day :: day in rep.days <==> InWindow(day, DAILY_WINDOW_DAYS, now))
    && (forall day :: day in rep.days ==> rep.days[day] == InBucket(rows, Day(day), now))
    && (forall r :: r in rows && Belongs(DailyWindow, r, now) ==> ModelKey(r.agent, r.model) in rep.models)
    && (forall k :: k in rep.models ==> rep.models[k] == InBucket(rows, Model(k.agent, k.model), now))
  }

  function RepoEntry(repos: map<string, RepoAccumulators>, repo: string): RepoAccumulators {
    if repo in repos then repos[repo] else RepoAccumulators(EMPTY, EMPTY, EMPTY)
  }

  function ModelEntry(models: map<ModelKey, Accumulator>, k: ModelKey): Accumulator {
    if k in models then models[k] else EMPTY
  }

  lemma RepoBucketsStep(rows: seq<Row>, r: Row, repo: string, now: int)
    ensures RepoBuckets(rows + [r], repo, now) ==
      if RepoName(r) != repo then RepoBuckets(rows, repo, now)
      else
        var was := RepoBuckets(rows, repo, now);
        RepoAccumulators(
          Add(was.allTime, r.usage, r.model),
          if r.day == now then Add(was.today, r.usage, r.model) else was.today,
          if InWindow(r.day, 7, now) then Add(was.last7d, r.usage, r.model) else was.last7d)
  {
    hide InBucket, Add;
    BucketStep(rows, r, RepoAllTime(repo), now);
    BucketStep(rows, r, RepoToday(repo), now);
    BucketStep(rows, r, RepoLast7d(repo), now);
  }

  /** A bucket no row belongs to is empty. */
  lemma {:induction false} NoRowsNothing(rows: seq<Row>, b: Bucket, now: int)
    requires forall r :: r in rows ==> !Belongs(b, r, now)
    ensures InBucket(rows, b, now) == EMPTY
  {
    if rows != [] {
      var front := rows[..|rows| - 1];
      assert rows[|rows| - 1] in rows && forall r :: r in front ==> r in rows;
      NoRowsNothing(front, b, now);
      BucketStep(front, rows[|rows| - 1], b, now);
      assert rows == front + [rows[|rows| - 1]];
    }
  }

  /** The row loop of `usage_metrics`. */
  method UsageReport(rows: seq<Row>, now: int) returns (rep: Report)
    ensures Reports(rep, rows, now)
  {
    hide InBucket, Add, PriceOf;
    var days: map<int, Accumulator> := map[];
    for back := DAILY_WINDOW_DAYS downto 0
      invariant forall day :: day in days <==> InWindow(day, DAILY_WINDOW_DAYS, now) && day <= now - back
      invariant forall day :: day in days ==> days[day] == EMPTY
    {
      days := days[now - back := EMPTY];
    }
    var allTime, today, last7d := EMPTY, EMPTY, EMPTY;
    var repos: map<string, RepoAccumulators> := map[];
    var models: map<ModelKey, Accumulator> := map[];
    EmptyReport(days, now);
    for i := 0 to |rows|
      invariant Reports(Report(allTime, today, last7d, repos, days, models), rows[..i], now)
    {
      var row := rows[i];
      ghost var was := Report(allTime, today, last7d, repos, days, models);
      var name := RepoName(row);
      allTime := Add(allTime, row.usage, row.model);
      var repo := RepoEntry(repos, name);
      repo := repo.(allTime := Add(repo.allTime, row.usage, row.model));
      if now - DAILY_WINDOW_DAYS < row.day <= now {
        days := days[row.day := Add(if row.day in days then days[row.day] else EMPTY, row.usage, row.model)];
        var key := ModelKey(row.agent, row.model);
        models := models[key := Add(ModelEntry(models, key), row.usage, row.model)];
      }
      if row.day == now {
        today := Add(today, row.usage, row.model);
        repo := repo.(today := Add(repo.today, row.usage, row.model));
      }
      if now - 7 < row.day <= now {
        last7d := Add(last7d, row.usage, row.model);
        repo := repo.(last7d := Add(repo.last7d, row.usage, row.model));
      }
      repos := repos[name := repo];
      assert rows[..i + 1] == rows[..i] + [row];
      ReportStep(was, Report(allTime, today, last7d, repos, days, models), rows[..i], row, now);
    }
    assert rows[..|rows|] == rows;
    rep := Report(allTime, today, last7d, repos, days, models);
  }

  lemma EmptyReport(days: map<int, Accumulator>, now: int)
    requires forall day :: day in days <==> InWindow(day, DAILY_WINDOW_DAYS, now)
    requires forall day :: day in days ==> days[day] == EMPTY
    ensures Reports(Report(EMPTY, EMPTY, EMPTY, map[], days, map[]), [], now)
  {
  }

  function RowAdded(acc: Accumulator, r: Row, counts: bool): Accumulator {
    if counts then Add(acc, r.usage, r.model) else acc
  }

  /** One row added to each accumulator it belongs to. */
  predicate Stepped(was: Report, next: Report, r: Row, now: int) {
    var window, key := InWindow(r.day, DAILY_WINDOW_DAYS, now), ModelKey(r.agent, r.model);
    var repo := RepoEntry(was.repos, RepoName(r));
    && next.allTime == RowAdded(was.allTime, r, true)
    && next.today == RowAdded(was.today, r, r.day == now)
    && next.last7d == RowAdded(was.last7d, r, InWindow(r.day, 7, now))
    && next.repos == was.repos[RepoName(r) := RepoAccumulators(
         RowAdded(repo.allTime, r, true), RowAdded(repo.today, r, r.day == now),
         RowAdded(repo.last7d, r, InWindow(r.day, 7, now)))]
    && next.days == (if window && r.day in was.days then was.days[r.day := RowAdded(was.days[r.day], r, true)] else was.days)
    && next.models == (if window then was.models[key := RowAdded(ModelEntry(was.models, key), r, true)] else was.models)
  }

  lemma ReportStep(was: Report, next: Report, rows: seq<Row>, r: Row, now: int)
    requires Reports(was, rows, now) && Stepped(was, next, r, now)
    ensures Reports(next, rows + [r], now)
  {
    hide InBucket, Add;
    BucketStep(rows, r, AllTime, now);
    BucketStep(rows, r, Today, now);
    BucketStep(rows, r, Last7d, now);
    forall day | day in next.days ensures next.days[day] == InBucket(rows + [r], Day(day), now) {
      BucketStep(rows, r, Day(day), now);
    }
    forall repo | repo in next.repos ensures next.repos[repo] == RepoBuckets(rows + [r], repo, now) {
      RepoBucketsStep(rows, r, repo, now);
      if repo !in was.repos {
        NoRowsNothing(rows, RepoAllTime(repo), now);
        NoRowsNothing(rows, RepoToday(repo), now);
        NoRowsNothing(rows, RepoLast7d(repo), now);
      }
    }
    forall k | k in next.models ensures next.models[k] == InBucket(rows + [r], Model(k.agent, k.model), now) {
      BucketStep(rows, r, Model(k.agent, k.model), now);
      if k !in was.models {
        NoRowsNothing(rows, Model(k.agent, k.model), now);
      }
    }
  }

  // ---- Exact totals behind the saturation ------------------------------------

  datatype Exact = Exact(standardInput: int, cacheRead: int, cacheWrite: int, cacheWrite1h: int, output: int, cost: int, unpriced: int)

  const ZERO := Exact(0, 0, 0, 0, 0, 0, 0)

  function Plus(a: Exact, b: Exact): Exact {
    Exact(a.standardInput + b.standardInput, a.cacheRead + b.cacheRead, a.cacheWrite + b.cacheWrite,
          a.cacheWrite1h + b.cacheWrite1h, a.output + b.output, a.cost + b.cost, a.unpriced + b.unpriced)
  }

  function ExactOf(r: Row): Exact {
    var u, price := r.usage, PriceOf(r.model);
    Exact(u.standardInput, u.cacheRead, u.cacheWrite, u.cacheWrite1h, u.output,
          if price.Some? then CostNanos(price.value, u) else 0,
          if price.Some? then 0 else u.standardInput + u.cacheRead + u.cacheWrite + u.cacheWrite1h + u.output)
  }

  function Sum(rows: seq<Row>): Exact {
    if rows == [] then ZERO else Plus(Sum(rows[..|rows| - 1]), ExactOf(rows[|rows| - 1]))
  }

  function Cap(n: int): int {
    if n > I64_MAX then I64_MAX else n
  }

  /** What the accumulator shows of exact totals. */
  function Capped(e: Exact): Accumulator {
    Accumulator(Usage(Cap(e.standardInput), Cap(e.cacheRead), Cap(e.cacheWrite), Cap(e.cacheWrite1h), Cap(e.output)),
                e.cost, Cap(e.unpriced))
  }

  predicate NonNegative(u: Usage) {
    u.standardInput >= 0 && u.cacheRead >= 0 && u.cacheWrite >= 0 && u.cacheWrite1h >= 0 && u.output >= 0
  }

  predicate Counted(rows: seq<Row>) {
    forall r :: r in rows ==> NonNegative(r.usage)
  }

  predicate NonNegativeTotals(e: Exact) {
    e.standardInput >= 0 && e.cacheRead >= 0 && e.cacheWrite >= 0 && e.cacheWrite1h >= 0 && e.output >= 0 && e.unpriced >= 0
  }

  lemma AddCapped(e: Exact, r: Row)
    requires NonNegativeTotals(e) && NonNegative(r.usage)
    ensures Add(Capped(e), r.usage, r.model) == Capped(Plus(e, ExactOf(r)))
    ensures NonNegativeTotals(Plus(e, ExactOf(r)))
  {
    hide PriceOf, CostNanos;
  }

  /** Each kind of token is charged at its own rate. */
  lemma CostByKind(p: CatalogPrice, u: Usage)
    ensures CostNanos(p, u) ==
      u.standardInput * p.input + u.cacheRead * p.cachedInput + u.cacheWrite * p.cacheWrite
      + u.cacheWrite1h * p.cacheWrite1h + u.output * p.output
    ensures forall n :: CostNanos(p, Usage(n, 0, 0, 0, 0)) == n * p.input
    ensures forall n :: CostNanos(p, Usage(0, n, 0, 0, 0)) == n * p.cachedInput
    ensures forall n :: CostNanos(p, Usage(0, 0, n, 0, 0)) == n * p.cacheWrite
    ensures forall n :: CostNanos(p, Usage(0, 0, 0, n, 0)) == n * p.cacheWrite1h
    ensures forall n :: CostNanos(p, Usage(0, 0, 0, 0, n)) == n * p.output
  {
  }

  /** Dollars for a million tokens of each kind, in thousandths of a cent. */
  datatype ListPrice = Listed(input: nat, cachedInput: nat, cacheWrite: nat, cacheWrite1h: nat, output: nat) | Unlisted

  /** The published prices; a model not listed here has none. */
  function PublishedPrice(model: string): ListPrice {
    if model == "fugu" then Listed(500_000, 50_000, 500_000, 500_000, 3_000_000)
    else if model == "gpt-6.1-sol" then Listed(200_000, 10_000, 250_000, 250_000, 1_000_000)
    else if model == "gpt-6-astra" then Listed(1_000_000, 100_000, 1_250_000, 1_250_000, 5_000_000)
    else if model in {"gpt-5.6-sol", "gpt-5.6"} then Listed(400_000, 40_000, 500_000, 500_000, 2_000_000)
    else if model == "gpt-5.6-terra" then Listed(200_000, 20_000, 250_000, 250_000, 1_200_000)
    else if model == "gpt-5.6-luna" then Listed(20_000, 2_000, 25_000, 25_000, 120_000)
    else if model == "claude-opus-5-5" then Listed(400_000, 20_000, 500_000, 800_000, 2_000_000)
    else if model in {"claude-opus-5", "claude-opus-4-8"} then Listed(500_000, 50_000, 625_000, 1_000_000, 2_500_000)
    else if model == "claude-fable-5" then Listed(1_000_000, 100_000, 1_250_000, 2_000_000, 5_000_000)
    else if model == "claude-fable-5-1" then Listed(1_000_000, 25_000, 1_250_000, 2_000_000, 5_000_000)
    else if model in {"claude-haiku-4-5", "claude-haiku-4-5-20251001"} then Listed(100_000, 10_000, 125_000, 200_000, 500_000)
    else Unlisted
  }

  const MILLION := 1_000_000

  /** A row of a listed model costs, per million tokens of each kind, what is published (10_000 nano-dollars a thousandth of
      a cent), and adds nothing to the unpriced tokens; a row of any other model costs nothing and is unpriced in full. */
  lemma ChargedAsPublished(r: Row)
    requires NonNegative(r.usage)
    ensures var listed, after, u := PublishedPrice(r.model), Add(EMPTY, r.usage, r.model), r.usage;
      match listed
      case Listed(input, cachedInput, cacheWrite, cacheWrite1h, output) =>
        && after.costNanos * MILLION == 10_000 *
             (u.standardInput * input + u.cacheRead * cachedInput + u.cacheWrite * cacheWrite + u.cacheWrite1h * cacheWrite1h
              + u.output * output)
        && after.unpricedTokens == 0
      case Unlisted =>
        && after.costNanos == 0
        && after.unpricedTokens == Cap(u.standardInput + u.cacheRead + u.cacheWrite + u.cacheWrite1h + u.output)
  {
    var price := PriceOf(r.model);
    RatesArePublished(r.model);
    hide PriceOf, PublishedPrice;
    if price.Some? {
      var p, u, listed := price.value, r.usage, PublishedPrice(r.model);
      PerMillion(u.standardInput, p.input, listed.input);
      PerMillion(u.cacheRead, p.cachedInput, listed.cachedInput);
      PerMillion(u.cacheWrite, p.cacheWrite, listed.cacheWrite);
      PerMillion(u.cacheWrite1h, p.cacheWrite1h, listed.cacheWrite1h);
      PerMillion(u.output, p.output, listed.output);
    }
  }

  lemma RatesArePublished(model: string)
    ensures PriceOf(model).Some? <==> PublishedPrice(model).Listed?
    ensures PriceOf(model).Some? ==>
      var p, listed := PriceOf(model).value, PublishedPrice(model);
      && p.input * 100 == listed.input && p.cachedInput * 100 == listed.cachedInput && p.cacheWrite * 100 == listed.cacheWrite
      && p.cacheWrite1h * 100 == listed.cacheWrite1h && p.output * 100 == listed.output
  {
  }

  lemma PerMillion(tokens: int, rate: nat, listed: nat)
    requires rate * 100 == listed
    ensures tokens * rate * MILLION == 10_000 * (tokens * listed)
  {
    assert tokens * listed == tokens * rate * 100;
  }

  /** Saturating accumulation of non-negative rows is the exact sum, capped once at the end. */
  lemma {:induction false} AccumulatedIsCappedSum(rows: seq<Row>)
    requires Counted(rows)
    ensures Accumulated(rows) == Capped(Sum(rows))
    ensures NonNegativeTotals(Sum(rows))
  {
    hide Add, ExactOf;
    if rows != [] {
      var front, last := rows[..|rows| - 1], rows[|rows| - 1];
      assert last in rows && forall r :: r in front ==> r in rows;
      AccumulatedIsCappedSum(front);
      hide Capped;
      AddCapped(Sum(front), last);
    }
  }

  // ---- Order and grouping do not matter --------------------------------------

  lemma {:induction false} SumSplit(a: seq<Row>, b: seq<Row>)
    ensures Sum(a + b) == Plus(Sum(a), Sum(b))
  {
    hide ExactOf;
    if b == [] {
      assert a + b == a;
    } else {
      assert (a + b)[..|a + b| - 1] == a + b[..|b| - 1];
      SumSplit(a, b[..|b| - 1]);
    }
  }

  lemma {:induction false} SumPermuted(a: seq<Row>, b: seq<Row>)
    requires multiset(a) == multiset(b)
    ensures Sum(a) == Sum(b)
  {
    hide ExactOf, Plus;
    if a == [] {
      assert |multiset(a)| == |multiset(b)| == 0;
    } else {
      var front, last := a[..|a| - 1], a[|a| - 1];
      assert a == front + [last];
      assert last in multiset(b);
      var i :| 0 <= i < |b| && b[i] == last;
      var rest := b[..i] + b[i + 1..];
      WithoutOne(b, i);
      assert multiset(front) == multiset(a) - multiset{last};
      assert multiset(rest) == multiset(b) - multiset{last};
      SumPermuted(front, rest);
      SumRemove(b, i);
    }
  }

  lemma WithoutOne(b: seq<Row>, i: nat)
    requires i < |b|
    ensures multiset(b) == multiset(b[..i] + b[i + 1..]) + multiset{b[i]}
  {
    assert b == b[..i] + [b[i]] + b[i + 1..];
  }

  lemma SumRemove(b: seq<Row>, i: nat)
    requires i < |b|
    ensures Sum(b) == Plus(Sum(b[..i] + b[i + 1..]), ExactOf(b[i]))
  {
    hide Sum, ExactOf, Plus;
    var front, back, r := b[..i], b[i + 1..], b[i];
    assert b == (front + [r]) + back;
    SumSplit(front + [r], back);
    SumAppend(front, r);
    SumSplit(front, back);
    PlusMoves(Sum(front), Sum(back), ExactOf(r));
  }

  /** The accumulated figures do not depend on the order of the rows. */
  lemma OrderDoesNotMatter(a: seq<Row>, b: seq<Row>)
    requires Counted(a) && multiset(a) == multiset(b)
    ensures Accumulated(a) == Accumulated(b)
  {
    forall r | r in b ensures r in a {
      assert r in multiset(b);
    }
    SumPermuted(a, b);
    AccumulatedIsCappedSum(a);
    AccumulatedIsCappedSum(b);
  }

  /** Two accumulators added figure by figure, saturating. */
  function Combine(a: Accumulator, b: Accumulator): Accumulator {
    Accumulator(SatAddUsage(a.usage, b.usage), a.costNanos + b.costNanos, SatAdd(a.unpricedTokens, b.unpricedTokens))
  }

  function CombineBuckets(rows: seq<Row>, parts: seq<Bucket>, now: int): Accumulator {
    if parts == [] then EMPTY else Combine(InBucket(rows, parts[0], now), CombineBuckets(rows, parts[1..], now))
  }

  /** Belongs to at least one of the parts. */
  predicate InSome(parts: seq<Bucket>, r: Row, now: int) {
    exists i :: 0 <= i < |parts| && Belongs(parts[i], r, now)
  }

  /** No row belongs to two of the parts. */
  ghost predicate Apart(parts: seq<Bucket>, now: int) {
    forall r, i, j :: 0 <= i < j < |parts| && Belongs(parts[i], r, now) ==> !Belongs(parts[j], r, now)
  }

  /** `parts`, in any order, split `whole`: each of its rows is in exactly one of them, and no other row is. */
  ghost predicate Splits(rows: seq<Row>, whole: Bucket, parts: seq<Bucket>, now: int) {
    && Apart(parts, now)
    && forall r :: r in rows ==> (InSome(parts, r, now) <==> Belongs(whole, r, now))
  }

  function SelectSome(rows: seq<Row>, parts: seq<Bucket>, now: int): seq<Row> {
    if rows == [] then []
    else
      var rest := SelectSome(rows[..|rows| - 1], parts, now);
      if InSome(parts, rows[|rows| - 1], now) then rest + [rows[|rows| - 1]] else rest
  }

  lemma {:induction false} SelectCounted(rows: seq<Row>, b: Bucket, now: int)
    requires Counted(rows)
    ensures Counted(Select(rows, b, now))
  {
    if rows != [] {
      assert forall r :: r in rows[..|rows| - 1] ==> r in rows;
      assert rows[|rows| - 1] in rows;
      SelectCounted(rows[..|rows| - 1], b, now);
    }
  }

  lemma ApartTail(parts: seq<Bucket>, now: int)
    requires parts != [] && Apart(parts, now)
    ensures Apart(parts[1..], now)
    ensures forall r :: Belongs(parts[0], r, now) ==> !InSome(parts[1..], r, now)
  {
    hide Belongs;
  }

  lemma PlusMoves(a: Exact, b: Exact, x: Exact)
    ensures Plus(Plus(a, x), b) == Plus(Plus(a, b), x) == Plus(a, Plus(b, x))
  {
  }

  lemma CombineCapped(a: Exact, b: Exact)
    requires NonNegativeTotals(a) && NonNegativeTotals(b)
    ensures Combine(Capped(a), Capped(b)) == Capped(Plus(a, b))
    ensures NonNegativeTotals(Plus(a, b))
  {
  }

  /** Peeling one part off: its rows and those of the others add up. */
  lemma {:induction false} SumOfParts(rows: seq<Row>, parts: seq<Bucket>, now: int)
    requires parts != []
    requires forall r :: Belongs(parts[0], r, now) ==> !InSome(parts[1..], r, now)
    ensures Sum(SelectSome(rows, parts, now)) == Plus(Sum(Select(rows, parts[0], now)), Sum(SelectSome(rows, parts[1..], now)))
  {
    hide ExactOf, Belongs, InSome, Sum, Plus;
    if rows == [] {
      assert Sum([]) == ZERO && Plus(ZERO, ZERO) == ZERO by { SumOfNothing(); }
    } else {
      var front, r := rows[..|rows| - 1], rows[|rows| - 1];
      var some, first, others := SelectSome(front, parts, now), Select(front, parts[0], now), SelectSome(front, parts[1..], now);
      SumOfParts(front, parts, now);
      InSomeStep(parts, r, now);
      PlusMoves(Sum(first), Sum(others), ExactOf(r));
      SumAppend(some, r);
      SumAppend(first, r);
      SumAppend(others, r);
    }
  }

  lemma SumOfNothing()
    ensures Sum([]) == ZERO && Plus(ZERO, ZERO) == ZERO
  {
  }

  lemma SumAppend(rows: seq<Row>, r: Row)
    ensures Sum(rows + [r]) == Plus(Sum(rows), ExactOf(r))
  {
    assert (rows + [r])[..|rows|] == rows;
  }

  lemma InSomeStep(parts: seq<Bucket>, r: Row, now: int)
    requires parts != []
    ensures InSome(parts, r, now) <==> Belongs(parts[0], r, now) || InSome(parts[1..], r, now)
  {
    if i :| 0 <= i < |parts| && Belongs(parts[i], r, now) {
      assert i > 0 ==> Belongs(parts[1..][i - 1], r, now);
    }
    if i :| 0 <= i < |parts[1..]| && Belongs(parts[1..][i], r, now) {
      assert Belongs(parts[i + 1], r, now);
    }
  }

  lemma {:induction false} CombinedIsCappedSum(rows: seq<Row>, parts: seq<Bucket>, now: int)
    requires Counted(rows) && Apart(parts, now)
    ensures CombineBuckets(rows, parts, now) == Capped(Sum(SelectSome(rows, parts, now)))
    ensures NonNegativeTotals(Sum(SelectSome(rows, parts, now)))
  {
    hide Belongs, ExactOf, InSome, Apart;
    if parts == [] {
      NothingSelected(rows, now);
    } else {
      ApartTail(parts, now);
      CombinedIsCappedSum(rows, parts[1..], now);
      SumOfParts(rows, parts, now);
      SelectCounted(rows, parts[0], now);
      AccumulatedIsCappedSum(Select(rows, parts[0], now));
      CombineCapped(Sum(Select(rows, parts[0], now)), Sum(SelectSome(rows, parts[1..], now)));
      hide Sum, SelectSome, Select, Accumulated, Combine, Capped, Plus, NonNegativeTotals;
    }
  }

  lemma {:induction false} NothingSelected(rows: seq<Row>, now: int)
    ensures SelectSome(rows, [], now) == []
  {
    if rows != [] {
      NothingSelected(rows[..|rows| - 1], now);
    }
  }

  lemma {:induction false} SelectSomeIsWhole(rows: seq<Row>, whole: Bucket, parts: seq<Bucket>, now: int)
    requires forall r :: r in rows ==> (InSome(parts, r, now) <==> Belongs(whole, r, now))
    ensures SelectSome(rows, parts, now) == Select(rows, whole, now)
  {
    hide InSome, Belongs;
    if rows != [] {
      assert rows[|rows| - 1] in rows && forall r :: r in rows[..|rows| - 1] ==> r in rows;
      SelectSomeIsWhole(rows[..|rows| - 1], whole, parts, now);
    }
  }

  /** Combining the buckets of a split, in any order, gives the whole bucket. */
  lemma GroupingDoesNotMatter(rows: seq<Row>, whole: Bucket, parts: seq<Bucket>, now: int)
    requires Counted(rows) && Splits(rows, whole, parts, now)
    ensures CombineBuckets(rows, parts, now) == InBucket(rows, whole, now)
  {
    CombinedIsCappedSum(rows, parts, now);
    SelectSomeIsWhole(rows, whole, parts, now);
    SelectCounted(rows, whole, now);
    AccumulatedIsCappedSum(Select(rows, whole, now));
  }

  // ---- The figures shown -----------------------------------------------------

  /** `UsageWindow` without its dollars. */
  datatype Window = Window(input: int, cacheWriteInput: int, cachedInput: int, output: int, unpriced: int)

  /** `UsageAccumulator::window` */
  function WindowOf(acc: Accumulator): Window {
    var u := acc.usage;
    Window(
      SatAdd(SatAdd(u.standardInput, u.cacheWrite), u.cacheWrite1h),
      SatAdd(u.cacheWrite, u.cacheWrite1h),
      u.cacheRead,
      u.output,
      acc.unpricedTokens)
  }

  /** Two windows added figure by figure, saturating. */
  function CombineWindows(a: Window, b: Window): Window {
    Window(SatAdd(a.input, b.input), SatAdd(a.cacheWriteInput, b.cacheWriteInput), SatAdd(a.cachedInput, b.cachedInput),
           SatAdd(a.output, b.output), SatAdd(a.unpriced, b.unpriced))
  }

  function CombineShown(rows: seq<Row>, parts: seq<Bucket>, now: int): Window {
    if parts == [] then WindowOf(EMPTY)
    else CombineWindows(WindowOf(InBucket(rows, parts[0], now)), CombineShown(rows, parts[1..], now))
  }

  /** The sums shown, each capped once. */
  function CappedWindow(e: Exact): Window {
    Window(Cap(e.standardInput + e.cacheWrite + e.cacheWrite1h), Cap(e.cacheWrite + e.cacheWrite1h), Cap(e.cacheRead),
           Cap(e.output), Cap(e.unpriced))
  }

  lemma WindowOfCapped(e: Exact)
    requires NonNegativeTotals(e)
    ensures WindowOf(Capped(e)) == CappedWindow(e)
  {
  }

  /** The figures shown are the exact sums, capped, however often an intermediate sum saturated. */
  lemma ShownAreCappedSums(rows: seq<Row>)
    requires Counted(rows)
    ensures WindowOf(Accumulated(rows)) == CappedWindow(Sum(rows))
  {
    AccumulatedIsCappedSum(rows);
    WindowOfCapped(Sum(rows));
  }

  lemma CombineWindowsCapped(a: Exact, b: Exact)
    requires NonNegativeTotals(a) && NonNegativeTotals(b)
    ensures CombineWindows(WindowOf(Capped(a)), WindowOf(Capped(b))) == WindowOf(Capped(Plus(a, b)))
  {
    CombineCapped(a, b);
    WindowOfCapped(a);
    WindowOfCapped(b);
    WindowOfCapped(Plus(a, b));
    hide WindowOf, Capped;
  }

  lemma {:induction false} ShownCombine(rows: seq<Row>, parts: seq<Bucket>, now: int)
    requires Counted(rows) && Apart(parts, now)
    ensures CombineShown(rows, parts, now) == WindowOf(CombineBuckets(rows, parts, now))
  {
    hide Apart, WindowOf, CombineWindows, Combine, Capped;
    if parts != [] {
      ApartTail(parts, now);
      ShownCombine(rows, parts[1..], now);
      CombinedIsCappedSum(rows, parts[1..], now);
      SelectCounted(rows, parts[0], now);
      AccumulatedIsCappedSum(Select(rows, parts[0], now));
      var a, b := Sum(Select(rows, parts[0], now)), Sum(SelectSome(rows, parts[1..], now));
      CombineWindowsCapped(a, b);
      CombineCapped(a, b);
    }
  }

  /** Combining the figures shown for the buckets of a split gives the figures shown for the whole. */
  lemma ShownGroupingDoesNotMatter(rows: seq<Row>, whole: Bucket, parts: seq<Bucket>, now: int)
    requires Counted(rows) && Splits(rows, whole, parts, now)
    ensures CombineShown(rows, parts, now) == WindowOf(InBucket(rows, whole, now))
  {
    GroupingDoesNotMatter(rows, whole, parts, now);
    ShownCombine(rows, parts, now);
  }

  // ---- The figures of one report agree ---------------------------------------

  /** Distinct buckets in some order. */
  ghost predicate Lists(parts: seq<Bucket>, all: set<Bucket>) {
    && (forall b :: b in parts <==> b in all)
    && (forall i, j :: 0 <= i < j < |parts| ==> parts[i] != parts[j])
  }

  /** Distinct parts of one kind share no row. */
  lemma DistinctAreApart(parts: seq<Bucket>, all: set<Bucket>, now: int)
    requires Lists(parts, all)
    requires || (forall b :: b in all ==> b.RepoAllTime?) || (forall b :: b in all ==> b.RepoToday?)
             || (forall b :: b in all ==> b.RepoLast7d?) || (forall b :: b in all ==> b.Day?) || (forall b :: b in all ==> b.Model?)
    ensures Apart(parts, now)
  {
    assert forall i :: 0 <= i < |parts| ==> parts[i] in all;
  }

  lemma InSomeIffListed(parts: seq<Bucket>, all: set<Bucket>, r: Row, now: int)
    requires Lists(parts, all)
    ensures InSome(parts, r, now) <==> exists b :: b in all && Belongs(b, r, now)
  {
    hide Belongs;
    if b :| b in all && Belongs(b, r, now) {
      assert b in parts;
      var i :| 0 <= i < |parts| && parts[i] == b;
    }
  }

  /** The per-repository totals combine to the all-time total. */
  lemma ReposMakeAllTime(rep: Report, rows: seq<Row>, now: int, parts: seq<Bucket>)
    requires Counted(rows) && Reports(rep, rows, now)
    requires Lists(parts, set repo | repo in rep.repos :: RepoAllTime(repo))
    ensures CombineBuckets(rows, parts, now) == rep.allTime
    ensures forall repo :: repo in rep.repos ==> rep.repos[repo].allTime == InBucket(rows, RepoAllTime(repo), now)
  {
    var all := set repo | repo in rep.repos :: RepoAllTime(repo);
    hide InBucket;
    assert forall r :: r in rows ==> RepoName(r) in rep.repos;
    assert rep.allTime == InBucket(rows, AllTime, now);
    assert forall repo :: repo in rep.repos ==> rep.repos[repo].allTime == InBucket(rows, RepoAllTime(repo), now);
    hide Reports, RepoBuckets;
    DistinctAreApart(parts, all, now);
    forall r | r in rows ensures InSome(parts, r, now) {
      InSomeIffListed(parts, all, r, now);
      assert RepoAllTime(RepoName(r)) in all;
    }
    GroupingDoesNotMatter(rows, AllTime, parts, now);
  }

  /** The per-repository totals of today combine to today's total. */
  lemma ReposMakeToday(rep: Report, rows: seq<Row>, now: int, parts: seq<Bucket>)
    requires Counted(rows) && Reports(rep, rows, now)
    requires Lists(parts, set repo | repo in rep.repos :: RepoToday(repo))
    ensures CombineBuckets(rows, parts, now) == rep.today
    ensures forall repo :: repo in rep.repos ==> rep.repos[repo].today == InBucket(rows, RepoToday(repo), now)
  {
    var all := set repo | repo in rep.repos :: RepoToday(repo);
    hide InBucket;
    assert forall r :: r in rows ==> RepoName(r) in rep.repos;
    assert rep.today == InBucket(rows, Today, now);
    assert forall repo :: repo in rep.repos ==> rep.repos[repo].today == InBucket(rows, RepoToday(repo), now);
    hide Reports, RepoBuckets;
    DistinctAreApart(parts, all, now);
    forall r | r in rows ensures InSome(parts, r, now) <==> Belongs(Today, r, now) {
      InSomeIffListed(parts, all, r, now);
      assert RepoToday(RepoName(r)) in all;
    }
    GroupingDoesNotMatter(rows, Today, parts, now);
  }

  /** And those of the last seven days to the seven-day total. */
  lemma ReposMakeLast7d(rep: Report, rows: seq<Row>, now: int, parts: seq<Bucket>)
    requires Counted(rows) && Reports(rep, rows, now)
    requires Lists(parts, set repo | repo in rep.repos :: RepoLast7d(repo))
    ensures CombineBuckets(rows, parts, now) == rep.last7d
    ensures forall repo :: repo in rep.repos ==> rep.repos[repo].last7d == InBucket(rows, RepoLast7d(repo), now)
  {
    var all := set repo | repo in rep.repos :: RepoLast7d(repo);
    hide InBucket;
    assert forall r :: r in rows ==> RepoName(r) in rep.repos;
    assert rep.last7d == InBucket(rows, Last7d, now);
    assert forall repo :: repo in rep.repos ==> rep.repos[repo].last7d == InBucket(rows, RepoLast7d(repo), now);
    hide Reports, RepoBuckets;
    DistinctAreApart(parts, all, now);
    forall r | r in rows ensures InSome(parts, r, now) <==> Belongs(Last7d, r, now) {
      InSomeIffListed(parts, all, r, now);
      assert RepoLast7d(RepoName(r)) in all;
    }
    GroupingDoesNotMatter(rows, Last7d, parts, now);
  }

  /** Today's total is today's daily figure. */
  lemma TodayIsItsDay(rep: Report, rows: seq<Row>, now: int)
    requires Reports(rep, rows, now)
    ensures now in rep.days && rep.days[now] == rep.today
  {
    hide Accumulated, Select, RepoBuckets, Belongs;
    TodayIsADay(rows, now);
    assert InWindow(now, DAILY_WINDOW_DAYS, now);
  }

  lemma TodayIsADay(rows: seq<Row>, now: int)
    ensures InBucket(rows, Day(now), now) == InBucket(rows, Today, now)
  {
    hide Accumulated, Select;
    SameSelection(rows, Day(now), Today, now);
  }

  /** Rows without a repository are reported together under one name of their own. */
  lemma EveryRowIsAttributed(rep: Report, rows: seq<Row>, now: int, r: Row)
    requires Reports(rep, rows, now) && r in rows
    ensures (match r.repo case Some(name) => name case None => "(unattributed)") in rep.repos
  {
    assert RepoName(r) in rep.repos;
  }

  lemma {:induction false} SameSelection(rows: seq<Row>, a: Bucket, b: Bucket, now: int)
    requires forall r :: r in rows ==> (Belongs(a, r, now) <==> Belongs(b, r, now))
    ensures Select(rows, a, now) == Select(rows, b, now)
  {
    if rows != [] {
      assert rows[|rows| - 1] in rows && forall r :: r in rows[..|rows| - 1] ==> r in rows;
      SameSelection(rows[..|rows| - 1], a, b, now);
    }
  }

  /** The last seven daily figures combine to the seven-day total. */
  lemma DaysMakeLast7d(rep: Report, rows: seq<Row>, now: int, parts: seq<Bucket>)
    requires Counted(rows) && Reports(rep, rows, now)
    requires Lists(parts, set day | now - 7 < day <= now :: Day(day))
    ensures CombineBuckets(rows, parts, now) == rep.last7d
    ensures forall day :: now - 7 < day <= now ==> day in rep.days && rep.days[day] == InBucket(rows, Day(day), now)
  {
    var all := set day | now - 7 < day <= now :: Day(day);
    hide InBucket;
    assert rep.last7d == InBucket(rows, Last7d, now);
    assert forall day :: now - 7 < day <= now ==> InWindow(day, DAILY_WINDOW_DAYS, now);
    hide Reports;
    DistinctAreApart(parts, all, now);
    forall r | r in rows ensures InSome(parts, r, now) <==> Belongs(Last7d, r, now) {
      InSomeIffListed(parts, all, r, now);
      assert now - 7 < r.day <= now ==> Day(r.day) in all;
    }
    GroupingDoesNotMatter(rows, Last7d, parts, now);
  }

  /** The per-model figures and the fourteen daily figures combine to the same total. */
  lemma ModelsMakeDays(rep: Report, rows: seq<Row>, now: int, models: seq<Bucket>, days: seq<Bucket>)
    requires Counted(rows) && Reports(rep, rows, now)
    requires Lists(models, set k | k in rep.models :: Model(k.agent, k.model))
    requires Lists(days, set day | day in rep.days :: Day(day))
    ensures CombineBuckets(rows, models, now) == CombineBuckets(rows, days, now) == InBucket(rows, DailyWindow, now)
    ensures forall k :: k in rep.models ==> rep.models[k] == InBucket(rows, Model(k.agent, k.model), now)
    ensures forall day :: day in rep.days ==> rep.days[day] == InBucket(rows, Day(day), now)
  {
    var allModels, allDays := set k | k in rep.models :: Model(k.agent, k.model), set day | day in rep.days :: Day(day);
    hide InBucket;
    assert forall r :: r in rows && Belongs(DailyWindow, r, now) ==> ModelKey(r.agent, r.model) in rep.models && r.day in rep.days;
    hide Reports;
    DistinctAreApart(models, allModels, now);
    DistinctAreApart(days, allDays, now);
    forall r | r in rows
      ensures InSome(models, r, now) <==> Belongs(DailyWindow, r, now)
      ensures InSome(days, r, now) <==> Belongs(DailyWindow, r, now)
    {
      InSomeIffListed(models, allModels, r, now);
      InSomeIffListed(days, allDays, r, now);
      if Belongs(DailyWindow, r, now) {
        var k := ModelKey(r.agent, r.model);
        assert k in rep.models && Model(k.agent, k.model) in allModels;
        assert Day(r.day) in allDays;
      }
    }
    GroupingDoesNotMatter(rows, DailyWindow, models, now);
    GroupingDoesNotMatter(rows, DailyWindow, days, now);
  }

  // ---- Costs -----------------------------------------------------------------

  predicate IsI64(u: Usage) {
    u.standardInput <= I64_MAX && u.cacheRead <= I64_MAX && u.cacheWrite <= I64_MAX && u.cacheWrite1h <= I64_MAX
    && u.output <= I64_MAX
  }

  /** No published rates add up to 2^17 nano-dollars. */
  lemma RatesAreSmall(model: string)
    ensures var p := PriceOf(model); p.Some? ==>
      p.value.input + p.value.cachedInput + p.value.cacheWrite + p.value.cacheWrite1h + p.value.output < 0x2_0000
  {
  }

  lemma RowCostBound(r: Row)
    requires NonNegative(r.usage) && IsI64(r.usage)
    ensures 0 <= ExactOf(r).cost <= 0x1_0000_0000_0000_0000_0000
  {
    RatesAreSmall(r.model);
    var p, u := PriceOf(r.model), r.usage;
    hide PriceOf;
    if p.Some? {
      Scale(u.standardInput, p.value.input);
      Scale(u.cacheRead, p.value.cachedInput);
      Scale(u.cacheWrite, p.value.cacheWrite);
      Scale(u.cacheWrite1h, p.value.cacheWrite1h);
      Scale(u.output, p.value.output);
    }
  }

  lemma Scale(tokens: int, rate: nat)
    requires 0 <= tokens <= I64_MAX
    ensures 0 <= tokens * rate <= I64_MAX * rate
  {
  }

  /** The cost is exact and stays within `i128` for fewer than 2^47 rows of `i64` counts. */
  lemma {:induction false} CostDoesNotOverflow(rows: seq<Row>)
    requires Counted(rows) && (forall r :: r in rows ==> IsI64(r.usage))
    ensures 0 <= Accumulated(rows).costNanos <= |rows| * 0x1_0000_0000_0000_0000_0000
    ensures |rows| < 0x8000_0000_0000 ==> Accumulated(rows).costNanos <= I128_MAX
  {
    hide PriceOf, CostNanos, ExactOf;
    AccumulatedIsCappedSum(rows);
    if rows != [] {
      var front, last := rows[..|rows| - 1], rows[|rows| - 1];
      assert last in rows && forall r :: r in front ==> r in rows;
      CostDoesNotOverflow(front);
      AccumulatedIsCappedSum(front);
      RowCostBound(last);
    }
  }
}
