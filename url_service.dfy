/**
 * `UrlService` and `RedirectController`: the short-code table, alias allocation, redirect
 * counting and the per-day click statistics.
 *
 * The two JPA repositories become sequences held by one object: `urls` (the `Url` table,
 * in id order) and `clicks` (the `Clicks` table, in insertion order). The messages handed to
 * `SimpMessagingTemplate.convertAndSend` are appended to `published`. `LocalDateTime.now()`
 * and `java.util.Random` are parameters.
 */
module UrlService {
  import opened Wrappers
  import opened Text
  import opened Topics
  import opened Time

  /** Java `int`, the type of the click counter. */
  newtype Int32 = x: int | -0x8000_0000 <= x < 0x8000_0000

  /** `clicks + 1` on a Java `int`: wraps from the largest value to the smallest. */
  function IncrementClicks(c: Int32): (r: Int32)
    ensures c < 0x7FFF_FFFF ==> r as int == c as int + 1
    ensures c == 0x7FFF_FFFF ==> r == -0x8000_0000
  {
    if c == 0x7FFF_FFFF then -0x8000_0000 else c + 1
  }

  /** The fields of the `User` entity that this core reads. */
  datatype User = User(id: nat, username: string)

  /** A row of the `Url` table. */
  datatype Url = Url(id: nat, url: string, shortenedUrl: string, clicks: Int32, dateCreated: Instant, user: User)

  /** A row of the `Clicks` table: one redirect of the URL with id `urlId`. */
  datatype Click = Click(urlId: nat, clickDate: Instant)

  /** The payload published on a click. */
  datatype ClickEventMessage = ClickEventMessage(urlId: nat, clicks: Int32, clickDate: Instant)

  /** One `convertAndSend(destination, message)` call. */
  datatype Publication = Publication(destination: string, message: ClickEventMessage)

  /** `UrlDto`, both as request (only `url` and `customAlias` are read) and as response. */
  datatype UrlDto = UrlDto(
    id: Option<nat>, url: string, shortenedUrl: Option<string>, customAlias: Option<string>,
    clicks: Int32, dateCreated: Option<Instant>, username: Option<string>)

  /** One entry of the per-day click statistics. */
  datatype ClicksDto = ClicksDto(clickDate: Date, count: nat)

  /** The exceptions this core throws. */
  datatype ServiceError = AliasAlreadyExists(message: string) | ResourceNotFound(message: string)

  /** The response of `RedirectController.redirect`: a status and the optional `Location` header. */
  datatype RedirectResponse = RedirectResponse(status: int, location: Option<string>)

  // ---------------------------------------------------------------- aliases

  const Characters: string := "ABCDEFGHIJKLMNOPQRSTUVWXYZabcdefghijklmnopqrstuvwxyz0123456789"
  const CodeLength: nat := 8

  predicate IsAlphanumeric(c: char)
  {
    ('A' <= c <= 'Z') || ('a' <= c <= 'z') || ('0' <= c <= '9')
  }

  /** The three runs `Characters` is made of. */
  const Uppercase: string := "ABCDEFGHIJKLMNOPQRSTUVWXYZ"
  const Lowercase: string := "abcdefghijklmnopqrstuvwxyz"
  const Digits: string := "0123456789"

  lemma CharactersRuns()
    ensures Characters == Uppercase + Lowercase + Digits
  {
  }

  lemma UppercaseAlphanumeric(k: nat)
    requires k < |Uppercase|
    ensures IsAlphanumeric(Uppercase[k])
  {
  }

  lemma LowercaseAlphanumeric(k: nat)
    requires k < |Lowercase|
    ensures IsAlphanumeric(Lowercase[k])
  {
  }

  lemma DigitsAlphanumeric(k: nat)
    requires k < |Digits|
    ensures IsAlphanumeric(Digits[k])
  {
  }

  /** The alphabet of generated codes has 62 chars, each an ASCII letter or digit. */
  lemma CharactersAreAlphanumeric()
    ensures |Characters| == 62
    ensures forall k :: 0 <= k < |Characters| ==> IsAlphanumeric(Characters[k])
  {
    CharactersRuns();
    forall k | 0 <= k < |Characters| ensures IsAlphanumeric(Characters[k]) {
      if k < 26 {
        UppercaseAlphanumeric(k);
      } else if k < 52 {
        LowercaseAlphanumeric(k - 26);
      } else {
        DigitsAlphanumeric(k - 52);
      }
    }
  }

  /** Draws of `random.nextInt(62)`, one per code position. */
  predicate ValidPicks(picks: seq<int>)
  {
    |picks| == CodeLength && forall k :: 0 <= k < |picks| ==> 0 <= picks[k] < |Characters|
  }

  /** The code `generateShortUrl` builds from the given draws. */
  function GeneratedCode(picks: seq<int>): string
    requires ValidPicks(picks)
  {
    seq(CodeLength, k requires 0 <= k < CodeLength => Characters[picks[k]])
  }

  /** `generateShortUrl`: appends one character per draw to a `StringBuilder`. */
  method GenerateShortUrl(picks: seq<int>) returns (code: string)
    requires ValidPicks(picks)
    ensures code == GeneratedCode(picks)
    ensures |code| == CodeLength
    ensures forall k :: 0 <= k < |code| ==> IsAlphanumeric(code[k])
  {
    CharactersAreAlphanumeric();
    code := [];
    for i := 0 to CodeLength
      invariant |code| == i
      invariant forall k :: 0 <= k < i ==> code[k] == Characters[picks[k]]
    {
      code := code + [Characters[picks[i]]];
    }
  }

  /** The custom alias `createShortUrl` uses: present and not blank by Java's `trim()`. */
  function ChosenAlias(requested: Option<string>): (r: Option<string>)
    ensures r.Some? <==> requested.Some? && exists k :: 0 <= k < |requested.value| && requested.value[k] > ' '
    ensures r.Some? ==> r == requested
  {
    if requested.Some? && !IsJavaBlank(requested.value) then requested else None
  }

  function AliasTakenMessage(alias: string): string
  {
    "Custom alias '" + alias + "' is already taken."
  }

  function UrlNotFoundMessage(code: string): string
  {
    "URL '" + code + "' not found."
  }

  // ---------------------------------------------------------------- lookups

  /** `findByShortenedUrl`: the position of the first row with this code. */
  function FindByShortenedUrl(urls: seq<Url>, code: string): (r: Option<nat>)
    ensures r.Some? ==> r.value < |urls| && urls[r.value].shortenedUrl == code
    ensures r.Some? ==> forall j :: 0 <= j < r.value ==> urls[j].shortenedUrl != code
    ensures r.None? <==> forall j :: 0 <= j < |urls| ==> urls[j].shortenedUrl != code
  {
    if urls == [] then None
    else if urls[0].shortenedUrl == code then Some(0)
    else match FindByShortenedUrl(urls[1..], code)
      case None => None
      case Some(i) => Some(i + 1)
  }

  /** `findByUser`: the rows owned by `user`, in table order. */
  function UrlsOf(urls: seq<Url>, user: User): (r: seq<Url>)
    ensures |r| <= |urls|
    ensures forall k :: 0 <= k < |r| ==> r[k] in urls && r[k].user == user
    ensures forall u :: u in urls && u.user == user ==> u in r
  {
    if urls == [] then []
    else if urls[0].user == user then [urls[0]] + UrlsOf(urls[1..], user)
    else UrlsOf(urls[1..], user)
  }

  /** Filtering a table keeps each row's place: it distributes over concatenation, row by row. */
  lemma {:induction false} UrlsOfAppend(a: seq<Url>, b: seq<Url>, user: User)
    ensures UrlsOf(a + b, user) == UrlsOf(a, user) + UrlsOf(b, user)
    ensures forall x :: UrlsOf([x], user) == if x.user == user then [x] else []
  {
    forall x ensures UrlsOf([x], user) == if x.user == user then [x] else [] {
      assert [x][1..] == [];
    }
    if a == [] {
      assert a + b == b;
    } else {
      assert (a + b)[1..] == a[1..] + b;
      UrlsOfAppend(a[1..], b, user);
    }
  }

  function IdsOf(urls: seq<Url>): set<nat>
  {
    set k | 0 <= k < |urls| :: urls[k].id
  }

  /** `convertToDto`: the response fields copied from a row; the owner's username; no alias. */
  function ConvertToDto(u: Url): UrlDto
  {
    UrlDto(Some(u.id), u.url, Some(u.shortenedUrl), None, u.clicks, Some(u.dateCreated), Some(u.user.username))
  }

  // ---------------------------------------------------------------- click statistics

  /** A click the query returns: on one of the URLs in `ids`, at a time in `[lo, hi]`. */
  predicate Selected(c: Click, ids: set<nat>, lo: Instant, hi: Instant)
  {
    c.urlId in ids && lo <= c.clickDate <= hi
  }

  /** The positions in the log of the selected clicks that fall on day `d`. */
  function SelectedOn(log: seq<Click>, ids: set<nat>, lo: Instant, hi: Instant, d: Date): set<nat>
  {
    set k: nat | k < |log| && Selected(log[k], ids, lo, hi) && DayOf(log[k].clickDate) == d
  }

  /** The positions in the log of the clicks on the URLs in `ids` that fall on day `d`. */
  function ClicksOnDay(log: seq<Click>, ids: set<nat>, d: Date): set<nat>
  {
    set k: nat | k < |log| && log[k].urlId in ids && DayOf(log[k].clickDate) == d
  }

  /**
   * The days of the clicks on the URLs in `ids` whose time lies in `[lo, hi]`, in log order:
   * `findByUrlAndClickDateBetween` and `findByUrlInAndClickDateBetween` (SQL `BETWEEN`
   * includes both ends) followed by `toLocalDate()`.
   */
  function ClickDaysBetween(log: seq<Click>, ids: set<nat>, lo: Instant, hi: Instant): (r: seq<Date>)
    ensures |r| <= |log|
    ensures forall d :: d in r ==> DayOf(lo) <= d <= DayOf(hi)
    ensures forall k :: 0 <= k < |log| && Selected(log[k], ids, lo, hi) ==> DayOf(log[k].clickDate) in r
  {
    if log == [] then []
    else
      var rest := ClickDaysBetween(log[..|log| - 1], ids, lo, hi);
      var c := log[|log| - 1];
      if Selected(c, ids, lo, hi) then rest + [DayOf(c.clickDate)] else rest
  }

  /** Each day occurs in the query's days once per selected click on that day. */
  lemma {:induction false} ClickDaysBetweenCounts(log: seq<Click>, ids: set<nat>, lo: Instant, hi: Instant, d: Date)
    ensures multiset(ClickDaysBetween(log, ids, lo, hi))[d] == |SelectedOn(log, ids, lo, hi, d)|
  {
    if log == [] {
      assert SelectedOn(log, ids, lo, hi, d) == {};
    } else {
      var n := |log|;
      var p := log[..n - 1];
      ClickDaysBetweenCounts(p, ids, lo, hi, d);
      var hit := Selected(log[n - 1], ids, lo, hi) && DayOf(log[n - 1].clickDate) == d;
      var before := SelectedOn(p, ids, lo, hi, d);
      SelectedOnPrefix(log, ids, lo, hi, d);
      if Selected(log[n - 1], ids, lo, hi) {
        assert ClickDaysBetween(log, ids, lo, hi) == ClickDaysBetween(p, ids, lo, hi) + [DayOf(log[n - 1].clickDate)];
      }
      if hit {
        assert n - 1 !in before;
        assert |before + {n - 1}| == |before| + 1;
      }
    }
  }

  /** The selected positions of a log are those of its prefix, plus the last one if it is selected. */
  lemma SelectedOnPrefix(log: seq<Click>, ids: set<nat>, lo: Instant, hi: Instant, d: Date)
    requires log != []
    ensures SelectedOn(log, ids, lo, hi, d) ==
      SelectedOn(log[..|log| - 1], ids, lo, hi, d) +
      (if Selected(log[|log| - 1], ids, lo, hi) && DayOf(log[|log| - 1].clickDate) == d then {|log| - 1} else {})
  {
  }

  /** A window covering all of day `d` selects every click of that day. */
  lemma WholeDaySelected(log: seq<Click>, ids: set<nat>, lo: Instant, hi: Instant, d: Date)
    requires lo <= StartOfDay(d) && StartOfDay(d + 1) - 1 <= hi
    ensures SelectedOn(log, ids, lo, hi, d) == ClicksOnDay(log, ids, d)
  {
    forall k: nat | k < |log| && DayOf(log[k].clickDate) == d ensures lo <= log[k].clickDate <= hi {
      DayOfWindow(log[k].clickDate, d);
    }
  }

  /** `groupingBy(toLocalDate, counting())` as a map: each day to its number of clicks. */
  function CountByDay(days: seq<Date>): (r: map<Date, nat>)
    ensures forall d :: d in r <==> multiset(days)[d] > 0
    ensures forall d :: d in r ==> r[d] == multiset(days)[d] >= 1
  {
    map d | d in days :: multiset(days)[d]
  }

  /** The days of a per-day list, in order. */
  function Dates(g: seq<ClicksDto>): (r: seq<Date>)
    ensures |r| == |g| && forall k :: 0 <= k < |g| ==> r[k] == g[k].clickDate
  {
    seq(|g|, k requires 0 <= k < |g| => g[k].clickDate)
  }

  predicate HasDate(g: seq<ClicksDto>, d: Date)
  {
    d in Dates(g)
  }

  predicate DistinctDates(g: seq<ClicksDto>)
  {
    forall i, j :: 0 <= i < j < |g| ==> g[i].clickDate != g[j].clickDate
  }

  /** The sum of the counts. */
  function Total(g: seq<ClicksDto>): nat
  {
    if g == [] then 0 else g[0].count + Total(g[1..])
  }

  /** Counts one more click on day `d`: bumps the first entry for that day, or appends a new one. */
  function AddClick(g: seq<ClicksDto>, d: Date): seq<ClicksDto>
  {
    if g == [] then [ClicksDto(d, 1)]
    else if g[0].clickDate == d then [g[0].(count := g[0].count + 1)] + g[1..]
    else [g[0]] + AddClick(g[1..], d)
  }

  /** Counting a click adds its day to the days of the list and keeps them distinct. */
  lemma {:induction false} AddClickDates(g: seq<ClicksDto>, d: Date)
    requires DistinctDates(g)
    ensures DistinctDates(AddClick(g, d))
    ensures forall x :: HasDate(AddClick(g, d), x) <==> HasDate(g, x) || x == d
  {
    var r := AddClick(g, d);
    if g == [] {
      assert Dates(r) == [d];
    } else if g[0].clickDate == d {
      assert Dates(r) == Dates(g);
    } else {
      AddClickDates(g[1..], d);
      assert Dates(g) == [g[0].clickDate] + Dates(g[1..]);
      assert Dates(r) == [g[0].clickDate] + Dates(AddClick(g[1..], d));
      assert !HasDate(g[1..], g[0].clickDate) by {
        forall k | 0 <= k < |g| - 1 ensures Dates(g[1..])[k] != g[0].clickDate {
          assert g[1..][k] == g[k + 1];
        }
      }
      forall x ensures HasDate(r, x) <==> HasDate(g, x) || x == d {
        assert HasDate(AddClick(g[1..], d), x) <==> HasDate(g[1..], x) || x == d;
        assert x in Dates(r) <==> x == g[0].clickDate || x in Dates(AddClick(g[1..], d));
        assert x in Dates(g) <==> x == g[0].clickDate || x in Dates(g[1..]);
      }
      forall i, j | 0 <= i < j < |r| ensures r[i].clickDate != r[j].clickDate {
        if i == 0 {
          assert r[j].clickDate == Dates(AddClick(g[1..], d))[j - 1];
        }
      }
    }
  }

  /** A click on a day already listed bumps that day's count and leaves every other entry as it was. */
  lemma {:induction false} AddClickExisting(g: seq<ClicksDto>, d: Date)
    requires DistinctDates(g) && HasDate(g, d)
    ensures |AddClick(g, d)| == |g|
    ensures forall k :: 0 <= k < |g| ==>
      && AddClick(g, d)[k].clickDate == g[k].clickDate
      && AddClick(g, d)[k].count == g[k].count + (if g[k].clickDate == d then 1 else 0)
  {
    if g[0].clickDate != d {
      assert Dates(g) == [g[0].clickDate] + Dates(g[1..]);
      AddClickExisting(g[1..], d);
    } else {
      forall k | 1 <= k < |g| ensures g[k].clickDate != d {
      }
    }
  }

  /** A click on a new day appends an entry counting one. */
  lemma {:induction false} AddClickNew(g: seq<ClicksDto>, d: Date)
    requires !HasDate(g, d)
    ensures AddClick(g, d) == g + [ClicksDto(d, 1)]
  {
    if g != [] {
      assert Dates(g) == [g[0].clickDate] + Dates(g[1..]);
      AddClickNew(g[1..], d);
    }
  }

  /** The per-day list of `getClickEventsByDate`: one entry per distinct day, in order of first click. */
  function GroupByDate(days: seq<Date>): seq<ClicksDto>
  {
    if days == [] then [] else AddClick(GroupByDate(days[..|days| - 1]), days[|days| - 1])
  }

  lemma {:induction false} TotalAddClick(g: seq<ClicksDto>, d: Date)
    ensures Total(AddClick(g, d)) == Total(g) + 1
  {
    if g == [] {
    } else if g[0].clickDate == d {
      assert AddClick(g, d)[1..] == g[1..];
    } else {
      TotalAddClick(g[1..], d);
      assert AddClick(g, d)[1..] == AddClick(g[1..], d);
    }
  }

  /** The per-day list holds exactly the days that have clicks, each once. */
  lemma {:induction false} GroupByDateDays(days: seq<Date>)
    ensures DistinctDates(GroupByDate(days))
    ensures forall d :: d in days <==> HasDate(GroupByDate(days), d)
  {
    if days != [] {
      var p := days[..|days| - 1];
      assert days == p + [days[|days| - 1]];
      GroupByDateDays(p);
      AddClickDates(GroupByDate(p), days[|days| - 1]);
    }
  }

  /** The counts of the per-day list sum to the number of clicks. */
  lemma {:induction false} GroupByDateTotal(days: seq<Date>)
    ensures Total(GroupByDate(days)) == |days|
  {
    if days != [] {
      var p := days[..|days| - 1];
      GroupByDateTotal(p);
      TotalAddClick(GroupByDate(p), days[|days| - 1]);
    }
  }

  /** Each entry of the per-day list counts the clicks on its day, so at least one. */
  lemma {:induction false} GroupByDateCounts(days: seq<Date>)
    ensures forall k :: 0 <= k < |GroupByDate(days)| ==>
      GroupByDate(days)[k].count == multiset(days)[GroupByDate(days)[k].clickDate] && GroupByDate(days)[k].count >= 1
  {
    if days != [] {
      var n := |days|;
      var p, x := days[..n - 1], days[n - 1];
      assert days == p + [x];
      assert multiset(days) == multiset(p) + multiset{x};
      var g0 := GroupByDate(p);
      GroupByDateCounts(p);
      GroupByDateDays(p);
      var g := GroupByDate(days);
      assert g == AddClick(g0, x);
      if HasDate(g0, x) {
        AddClickExisting(g0, x);
        forall k | 0 <= k < |g| ensures g[k].count == multiset(days)[g[k].clickDate] && g[k].count >= 1 {
          var e := g0[k].clickDate;
          assert g[k].clickDate == e;
          assert g0[k].count == multiset(p)[e];
          assert multiset(days)[e] == multiset(p)[e] + (if e == x then 1 else 0);
        }
      } else {
        AddClickNew(g0, x);
        assert x !in p;
        forall k | 0 <= k < |g| ensures g[k].count == multiset(days)[g[k].clickDate] && g[k].count >= 1 {
          if k < |g0| {
            var e := g0[k].clickDate;
            assert g[k] == g0[k];
            assert e != x by {
              assert Dates(g0)[k] == e;
            }
            assert multiset(days)[e] == multiset(p)[e];
          } else {
            assert g[k] == ClicksDto(x, 1);
            assert multiset(p)[x] == 0;
          }
        }
      }
    }
  }

  /** The per-day list and the per-day map hold the same days with the same counts. */
  lemma GroupByDateAgreesWithCountByDay(days: seq<Date>)
    ensures forall k :: 0 <= k < |GroupByDate(days)| ==>
      && GroupByDate(days)[k].clickDate in CountByDay(days)
      && GroupByDate(days)[k].count == CountByDay(days)[GroupByDate(days)[k].clickDate]
    ensures forall d :: d in CountByDay(days) <==> HasDate(GroupByDate(days), d)
  {
    GroupByDateDays(days);
    GroupByDateCounts(days);
  }

  /**
   * `getTotalClicksByUserAndDate` as written: the clicks on all of the user's URLs from the
   * start of `start` to the start of the day after `end`, both ends included, counted per day.
   */
  function TotalClicksByDay(urls: seq<Url>, log: seq<Click>, user: User, start: Date, end: Date): (r: map<Date, nat>)
    ensures forall d :: d in r ==> start <= d <= end + 1 && r[d] >= 1
    ensures forall d :: d in r <==> SelectedOn(log, IdsOf(UrlsOf(urls, user)), StartOfDay(start), StartOfDay(end + 1), d) != {}
    ensures forall d :: d in r ==> r[d] == |SelectedOn(log, IdsOf(UrlsOf(urls, user)), StartOfDay(start), StartOfDay(end + 1), d)|
    ensures forall d :: start <= d <= end ==>
      SelectedOn(log, IdsOf(UrlsOf(urls, user)), StartOfDay(start), StartOfDay(end + 1), d) == ClicksOnDay(log, IdsOf(UrlsOf(urls, user)), d)
  {
    var ids := IdsOf(UrlsOf(urls, user));
    var days := ClickDaysBetween(log, ids, StartOfDay(start), StartOfDay(end + 1));
    DayOfWindow(StartOfDay(start), start);
    DayOfWindow(StartOfDay(end + 1), end + 1);
    forall d ensures multiset(days)[d] == |SelectedOn(log, ids, StartOfDay(start), StartOfDay(end + 1), d)| {
      ClickDaysBetweenCounts(log, ids, StartOfDay(start), StartOfDay(end + 1), d);
    }
    forall d | start <= d <= end
      ensures SelectedOn(log, ids, StartOfDay(start), StartOfDay(end + 1), d) == ClicksOnDay(log, ids, d)
    {
      WholeDaySelected(log, ids, StartOfDay(start), StartOfDay(end + 1), d);
    }
    CountByDay(days)
  }

  /**
   * A click at exactly midnight after `end` is counted, under the day after `end`:
   * the inclusive upper bound lets one instant of the next day through.
   */
  lemma MidnightAfterEndIsCounted()
    ensures var alice := User(1, "alice");
      var m := TotalClicksByDay([Url(1, "https://example.com", "abc123", 1, 0, alice)],
                                [Click(1, StartOfDay(8))], alice, 1, 7);
      8 in m && m[8] == 1
  {
    var alice := User(1, "alice");
    var urls := [Url(1, "https://example.com", "abc123", 1, 0, alice)];
    assert UrlsOf(urls, alice) == urls;
    assert 1 in IdsOf(urls) by { assert urls[0].id == 1; }
    var log := [Click(1, StartOfDay(8))];
    var days := ClickDaysBetween(log, IdsOf(urls), StartOfDay(1), StartOfDay(8));
    assert days == [8];
    assert multiset(days)[8] == 1;
  }

  /** The query window as evidently intended: the days `start` to `end`, the next day excluded. */
  function TotalClicksByDayHalfOpen(urls: seq<Url>, log: seq<Click>, user: User, start: Date, end: Date): (r: map<Date, nat>)
    ensures forall d :: d in r ==> start <= d <= end && r[d] >= 1
    ensures forall d :: d in r <==> start <= d <= end && ClicksOnDay(log, IdsOf(UrlsOf(urls, user)), d) != {}
    ensures forall d :: d in r ==> r[d] == |ClicksOnDay(log, IdsOf(UrlsOf(urls, user)), d)|
  {
    var ids := IdsOf(UrlsOf(urls, user));
    var lo, hi := StartOfDay(start), StartOfDay(end + 1) - 1;
    var days := ClickDaysBetween(log, ids, lo, hi);
    DayOfWindow(lo, start);
    DayOfWindow(hi, end);
    forall d ensures multiset(days)[d] == |SelectedOn(log, ids, lo, hi, d)| {
      ClickDaysBetweenCounts(log, ids, lo, hi, d);
    }
    forall d | start <= d <= end ensures SelectedOn(log, ids, lo, hi, d) == ClicksOnDay(log, ids, d) {
      StartOfDayMonotone(start, d);
      StartOfDayMonotone(d + 1, end + 1);
      WholeDaySelected(log, ids, lo, hi, d);
    }
    CountByDay(days)
  }

  /** Replacing a row by one with the same id and code keeps the set of ids and every code. */
  lemma ClickUpdateKeepsRows(urls: seq<Url>, i: nat, u: Url)
    requires i < |urls| && u.id == urls[i].id && u.shortenedUrl == urls[i].shortenedUrl
    ensures IdsOf(urls[i := u]) == IdsOf(urls)
    ensures forall j :: 0 <= j < |urls| ==> urls[i := u][j].id == urls[j].id
    ensures forall j :: 0 <= j < |urls| ==> urls[i := u][j].shortenedUrl == urls[j].shortenedUrl
  {
    forall id | id in IdsOf(urls) ensures id in IdsOf(urls[i := u]) {
      var j :| 0 <= j < |urls| && urls[j].id == id;
      assert urls[i := u][j].id == id;
    }
    forall id | id in IdsOf(urls[i := u]) ensures id in IdsOf(urls) {
      var j :| 0 <= j < |urls| && urls[i := u][j].id == id;
      assert urls[j].id == id;
    }
  }

  // ---------------------------------------------------------------- the service

  class UrlService {
    /** The `Url` table, in id order. */
    var urls: seq<Url>
    /** The `Clicks` table, in insertion order. */
    var clicks: seq<Click>
    /** Every message handed to the messaging template, in order. */
    var published: seq<Publication>
    /** The id the database assigns to the next saved `Url`. */
    var nextId: nat

    /** Ids are assigned in increasing order and every click refers to a saved URL. */
    ghost predicate Valid()
      reads this
    {
      && (forall i, j :: 0 <= i < j < |urls| ==> urls[i].id < urls[j].id)
      && (forall i :: 0 <= i < |urls| ==> urls[i].id < nextId)
      && (forall k :: 0 <= k < |clicks| ==> clicks[k].urlId in IdsOf(urls))
    }

    /** No two rows share a short code. Custom aliases keep this; generated codes need not. */
    predicate UniqueCodes()
      reads this
    {
      forall i, j :: 0 <= i < j < |urls| ==> urls[i].shortenedUrl != urls[j].shortenedUrl
    }

    constructor ()
      ensures Valid() && UniqueCodes()
      ensures urls == [] && clicks == [] && published == []
    {
      urls, clicks, published, nextId := [], [], [], 1;
    }

    /**
     * `createShortUrl`: a non-blank custom alias that is taken throws and saves nothing; a free
     * one is stored verbatim; otherwise a generated 8-character code is stored without
     * consulting the table. The new row gets the next id and zero clicks.
     */
    method CreateShortUrl(request: UrlDto, user: User, now: Instant, picks: seq<int>) returns (r: Result<UrlDto, ServiceError>)
      requires Valid()
      requires ValidPicks(picks)
      modifies this
      ensures Valid()
      ensures clicks == old(clicks) && published == old(published)
      ensures var alias := ChosenAlias(request.customAlias);
        alias.Some? && FindByShortenedUrl(old(urls), alias.value).Some? ==>
          && r == Failure(AliasAlreadyExists(AliasTakenMessage(alias.value)))
          && urls == old(urls) && nextId == old(nextId)
      ensures var alias := ChosenAlias(request.customAlias);
        !(alias.Some? && FindByShortenedUrl(old(urls), alias.value).Some?) ==>
          var code := if alias.Some? then alias.value else GeneratedCode(picks);
          var saved := Url(old(nextId), request.url, code, 0, now, user);
          && urls == old(urls) + [saved]
          && nextId == old(nextId) + 1
          && r == Success(ConvertToDto(saved))
      ensures ChosenAlias(request.customAlias).Some? && old(UniqueCodes()) ==> UniqueCodes()
      ensures r.Success? ==>
        forall owner :: UrlsOf(urls, owner) == UrlsOf(old(urls), owner) + (if owner == user then [urls[|urls| - 1]] else [])
    {
      var code: string;
      var alias := ChosenAlias(request.customAlias);
      if alias.Some? {
        if FindByShortenedUrl(urls, alias.value).Some? {
          return Failure(AliasAlreadyExists(AliasTakenMessage(alias.value)));
        }
        code := alias.value;
      } else {
        code := GenerateShortUrl(picks);
      }
      var saved := Url(nextId, request.url, code, 0, now, user);
      urls := urls + [saved];
      nextId := nextId + 1;
      assert forall k :: 0 <= k < |clicks| ==> clicks[k].urlId in IdsOf(old(urls)) ==> clicks[k].urlId in IdsOf(urls) by {
        forall k | 0 <= k < |clicks| && clicks[k].urlId in IdsOf(old(urls)) ensures clicks[k].urlId in IdsOf(urls) {
          var i :| 0 <= i < |old(urls)| && old(urls)[i].id == clicks[k].urlId;
          assert urls[i].id == clicks[k].urlId;
        }
      }
      forall owner ensures UrlsOf(urls, owner) == UrlsOf(old(urls), owner) + (if owner == user then [saved] else []) {
        UrlsOfAppend(old(urls), [saved], owner);
      }
      r := Success(ConvertToDto(saved));
    }

    /** `getUrlsByUser`: the user's rows as response objects, in table order. */
    function GetUrlsByUser(user: User): (r: seq<UrlDto>)
      reads this
      ensures |r| == |UrlsOf(urls, user)|
      ensures forall k :: 0 <= k < |r| ==> r[k] == ConvertToDto(UrlsOf(urls, user)[k])
    {
      var owned := UrlsOf(urls, user);
      seq(|owned|, k requires 0 <= k < |owned| => ConvertToDto(owned[k]))
    }

    /**
     * `getOriginalUrl`: on a known code, raises that row's clicks by one (as a Java `int`),
     * changes nothing else in the table, logs one click and publishes one message carrying the
     * new count to the URL's topic; on an unknown code returns null and changes nothing.
     */
    method GetOriginalUrl(code: string, now: Instant) returns (r: Option<Url>)
      requires Valid()
      modifies this
      ensures Valid() && nextId == old(nextId)
      ensures FindByShortenedUrl(old(urls), code).None? ==>
        r == None && urls == old(urls) && clicks == old(clicks) && published == old(published)
      ensures FindByShortenedUrl(old(urls), code).Some? ==>
        var i := FindByShortenedUrl(old(urls), code).value;
        var hit := old(urls)[i];
        var updated := hit.(clicks := IncrementClicks(hit.clicks));
        && r == Some(updated)
        && urls == old(urls)[i := updated]
        && clicks == old(clicks) + [Click(hit.id, now)]
        && published == old(published) + [Publication(ClickTopic(hit.id), ClickEventMessage(hit.id, updated.clicks, now))]
      ensures UniqueCodes() == old(UniqueCodes())
    {
      var found := FindByShortenedUrl(urls, code);
      if found.None? {
        return None;
      }
      var i := found.value;
      var url := urls[i].(clicks := IncrementClicks(urls[i].clicks));
      ClickUpdateKeepsRows(urls, i, url);
      urls := urls[i := url];
      clicks := clicks + [Click(url.id, now)];
      published := published + [Publication(ClickTopic(url.id), ClickEventMessage(url.id, url.clicks, now))];
      r := Some(url);
    }

    /**
     * `RedirectController.redirect`: a known code answers 302 with `Location` set to the stored
     * URL and counts exactly one click; an unknown code answers 404 without `Location` and
     * changes nothing. Only the clicks field of a row ever changes.
     */
    method Redirect(code: string, now: Instant) returns (resp: RedirectResponse)
      requires Valid()
      modifies this
      ensures Valid() && nextId == old(nextId)
      ensures |urls| == |old(urls)|
      ensures forall j :: 0 <= j < |urls| ==> urls[j] == old(urls)[j].(clicks := urls[j].clicks)
      ensures FindByShortenedUrl(old(urls), code).None? ==>
        resp == RedirectResponse(404, None) && urls == old(urls) && clicks == old(clicks) && published == old(published)
      ensures FindByShortenedUrl(old(urls), code).Some? ==>
        var i := FindByShortenedUrl(old(urls), code).value;
        && resp == RedirectResponse(302, Some(old(urls)[i].url))
        && urls[i].clicks == IncrementClicks(old(urls)[i].clicks)
        && (forall j :: 0 <= j < |urls| && j != i ==> urls[j] == old(urls)[j])
        && clicks == old(clicks) + [Click(old(urls)[i].id, now)]
        && published == old(published) +
             [Publication(ClickTopic(old(urls)[i].id), ClickEventMessage(old(urls)[i].id, urls[i].clicks, now))]
    {
      var url := GetOriginalUrl(code, now);
      if url.Some? {
        resp := RedirectResponse(302, Some(url.value.url));
      } else {
        resp := RedirectResponse(404, None);
      }
    }

    /**
     * `getClickEventsByDate`: an unknown code fails with `ResourceNotFoundException` before any
     * click is read; otherwise one entry per distinct day with clicks in `[start, end]`, each
     * count at least one and equal to that day's clicks, the counts summing to the clicks in range.
     */
    function GetClickEventsByDate(code: string, start: Instant, end: Instant): (r: Result<seq<ClicksDto>, ServiceError>)
      reads this
      ensures FindByShortenedUrl(urls, code).None? <==> r.Failure?
      ensures r.Failure? ==> r.error == ResourceNotFound(UrlNotFoundMessage(code))
      ensures r.Success? ==>
        var days := ClickDaysBetween(clicks, {urls[FindByShortenedUrl(urls, code).value].id}, start, end);
        && DistinctDates(r.value)
        && (forall k :: 0 <= k < |r.value| ==> r.value[k].count == multiset(days)[r.value[k].clickDate] >= 1)
        && (forall k :: 0 <= k < |r.value| ==>
              r.value[k].count == |SelectedOn(clicks, {urls[FindByShortenedUrl(urls, code).value].id}, start, end, r.value[k].clickDate)|)
        && (forall d :: d in days <==> HasDate(r.value, d))
        && Total(r.value) == |days|
    {
      match FindByShortenedUrl(urls, code)
      case None => Failure(ResourceNotFound(UrlNotFoundMessage(code)))
      case Some(i) =>
        var days := ClickDaysBetween(clicks, {urls[i].id}, start, end);
        GroupByDateDays(days);
        GroupByDateTotal(days);
        GroupByDateCounts(days);
        forall d ensures multiset(days)[d] == |SelectedOn(clicks, {urls[i].id}, start, end, d)| {
          ClickDaysBetweenCounts(clicks, {urls[i].id}, start, end, d);
        }
        Success(GroupByDate(days))
    }

    /**
     * `getTotalClicksByUserAndDate` over the days `start` to `end`, with the query window the
     * code evidently intends (the inclusive one it has is `TotalClicksByDay`): every day with a
     * click on one of the user's URLs is a key, and no other day.
     */
    function GetTotalClicksByUserAndDate(user: User, start: Date, end: Date): (r: map<Date, nat>)
      reads this
      ensures forall d :: d in r ==> start <= d <= end && r[d] >= 1
      ensures forall d :: d in r <==> start <= d <= end && ClicksOnDay(clicks, IdsOf(UrlsOf(urls, user)), d) != {}
      ensures forall d :: d in r ==> r[d] == |ClicksOnDay(clicks, IdsOf(UrlsOf(urls, user)), d)|
    {
      TotalClicksByDayHalfOpen(urls, clicks, user, start, end)
    }
  }

  /**
   * The random path does not check the table: two creations that draw the same characters
   * store the same code twice.
   */
  method GeneratedCodesMayCollide() returns (unique: bool)
    ensures !unique
  {
    var service := new UrlService();
    var picks := [0, 1, 2, 3, 4, 5, 6, 7];
    var request := UrlDto(None, "https://example.com", None, None, 0, None, None);
    var alice := User(1, "alice");
    var first := service.CreateShortUrl(request, alice, 0, picks);
    var second := service.CreateShortUrl(request, alice, 1, picks);
    assert service.urls[0].shortenedUrl == service.urls[1].shortenedUrl;
    unique := service.UniqueCodes();
  }
}
