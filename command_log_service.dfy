/** The command history: one JSON-lines file per UTC day, named
  * `YYYY-MM-DD.jsonl`, of which only the newest few are kept. Appending an
  * entry first prunes old files; listing prunes too, then reads the newest
  * entries (newest file first, last line first) up to a cap and returns
  * them sorted by timestamp, newest first.
  *
  * The directory is a map from file names to their non-empty lines. A line
  * is a parsed JSON value or text that is not JSON at all. */
module CommandLogService {
  import opened Wrappers
  import opened JsText
  import opened JsValues
  import opened Lists
  import opened TextOrder
  import Subscriptions = PushSubscriptionRepository

  /** One audited command; `verb` is the request's HTTP method. */
  datatype Entry = Entry(id: string, timestamp: string, verb: string, path: string, command: string,
                         status: int, actor: string, ip: Option<string>)

  /** The entry as `JSON.stringify` writes it on its line. */
  function EncodeEntry(e: Entry): JsValue
  {
    Obj(map["id" := Str(e.id), "timestamp" := Str(e.timestamp), "method" := Str(e.verb),
            "path" := Str(e.path), "command" := Str(e.command), "status" := Subscriptions.IntValue(e.status),
            "actor" := Str(e.actor), "ip" := Subscriptions.OptionalStr(e.ip)])
  }

  datatype LogLine = Line(value: JsValue) | Garbage

  type Files = map<string, seq<LogLine>>

  /** What the listing accepts as an entry: an object whose `timestamp` and
    * `command` are strings. */
  predicate IsEntry(v: JsValue)
  {
    Get(v, "timestamp").Str? && Get(v, "command").Str?
  }

  /** `safeParseEntry`: the parsed line when it is an entry; nothing for a
    * line that is not JSON or lacks a string timestamp or command. */
  function SafeParseEntry(line: LogLine): (r: Option<JsValue>)
    ensures r.Some? <==> line.Line? && IsEntry(line.value)
    ensures r.Some? ==> r.value == line.value && r.value.Obj?
  {
    match line
    case Garbage => None
    case Line(v) => if IsEntry(v) then Some(v) else None
  }

  function Timestamp(v: JsValue): string
  {
    if Get(v, "timestamp").Str? then Get(v, "timestamp").s else ""
  }

  /** Every entry written is listed back as written, under its timestamp. */
  lemma EntryRoundTrip(e: Entry)
    ensures SafeParseEntry(Line(EncodeEntry(e))) == Some(EncodeEntry(e))
    ensures Timestamp(EncodeEntry(e)) == e.timestamp
  {
    assert Get(EncodeEntry(e), "timestamp") == Str(e.timestamp);
    assert Get(EncodeEntry(e), "command") == Str(e.command);
  }

  /** `/^\d{4}-\d{2}-\d{2}\.jsonl$/`. */
  predicate IsLogName(n: string)
  {
    && |n| == 16
    && IsDigit(n[0]) && IsDigit(n[1]) && IsDigit(n[2]) && IsDigit(n[3]) && n[4] == '-'
    && IsDigit(n[5]) && IsDigit(n[6]) && n[7] == '-' && IsDigit(n[8]) && IsDigit(n[9])
    && n[10..] == ".jsonl"
  }

  function LogNamesIn(keys: set<string>): set<string>
  {
    set n | n in keys && IsLogName(n)
  }

  function LogNames(files: Files): set<string>
  {
    LogNamesIn(files.Keys)
  }

  // ---------------------------------------------------------------- retention

  const DefaultRetentionDays := 7

  /** `Number(COMMAND_LOG_RETENTION_DAYS || 7)`. */
  function RetentionDays(raw: JsValue): (d: Num)
    ensures !Truthy(raw) ==> d == Finite(DefaultRetentionDays as real)
  {
    NumberOf(Or(raw, Number(Finite(DefaultRetentionDays as real))))
  }

  /** `Math.max(1, days)`: `NaN` if `days` is `NaN`. */
  function KeepOf(days: Num): (k: Num)
    ensures k.NaN? <==> days.NaN?
    ensures k.Finite? ==> k.r >= 1.0 && (days.Finite? && days.r >= 1.0 ==> k == days)
    ensures !k.NegInf?
  {
    match days
    case NaN => NaN
    case PosInf => PosInf
    case NegInf => Finite(1.0)
    case Finite(r) => Finite(if r >= 1.0 then r else 1.0)
  }

  /** The index `xs.slice(start)` starts at, for `|xs| == len`. */
  function SliceStart(len: nat, start: Num): (i: nat)
    ensures i <= len
    ensures start.NaN? || start.NegInf? ==> i == 0
    ensures start.PosInf? ==> i == len
    ensures start.Finite? && start.r >= 0.0 ==> i == if Trunc(start.r) < len then Trunc(start.r) else len
  {
    match start
    case NaN => 0
    case NegInf => 0
    case PosInf => len
    case Finite(r) =>
      var t := Trunc(r);
      if t < 0 then (if len + t < 0 then 0 else len + t)
      else if t < len then t else len
  }

  /** How many of `len` log files survive a prune. */
  function KeepCount(days: Num, len: nat): nat
  {
    SliceStart(len, KeepOf(days))
  }

  /** Unless the retention is `NaN`, at least one file survives. */
  lemma KeepCountPositive(days: Num, len: nat)
    requires !days.NaN? && len >= 1
    ensures KeepCount(days, len) >= 1
  {
  }

  lemma MapMinusStep(m: Files, gone: set<string>, n: string)
    ensures m - (gone + {n}) == (m - gone) - {n}
  {
  }

  /** The log files a prune deletes: all but the first `KeepCount` in the
    * newest-first order. */
  ghost function Doomed(files: Files, days: Num): set<string>
  {
    var order := Ranked(LogNames(files));
    Names(order[KeepCount(days, |order|)..])
  }

  /** `pruneOldFiles` on the directory. */
  ghost function Pruned(files: Files, days: Num): (r: Files)
    ensures r.Keys <= files.Keys
    ensures forall n :: n in r ==> r[n] == files[n]
    ensures forall n :: n in files && !IsLogName(n) ==> n in r
  {
    var order := Ranked(LogNames(files));
    assert forall n :: n in order ==> IsLogName(n) by {
      forall n | n in order ensures IsLogName(n) { assert n in Names(order); }
    }
    files - Doomed(files, days)
  }

  /** Position in a sequence of distinct names decides which side of a cut
    * a name falls on. */
  lemma CutOfDistinct(s: seq<string>, i: int, k: nat)
    requires NoRepeats(s) && 0 <= i < |s| && k <= |s|
    ensures s[i] in s[k..] <==> i >= k
    ensures s[i] in s[..k] <==> i < k
  {
    if i >= k { assert s[k..][i - k] == s[i]; } else { assert s[..k][i] == s[i]; }
    if s[i] in s[k..] {
      var j :| 0 <= j < |s| - k && s[k..][j] == s[i];
      assert s[k + j] == s[i];
    }
    if s[i] in s[..k] {
      var j :| 0 <= j < k && s[..k][j] == s[i];
      assert s[j] == s[i];
    }
  }

  /** A file is deleted exactly when at least `KeepCount` log files are
    * newer than it. */
  lemma DoomedByRank(files: Files, days: Num, n: string)
    ensures n in Doomed(files, days) <==>
      n in LogNames(files) && |Above(LogNames(files), n)| >= KeepCount(days, |LogNames(files)|)
  {
    var names := LogNames(files);
    var order := Ranked(names);
    var k := KeepCount(days, |order|);
    if n in names {
      assert n in Names(order);
      var j :| 0 <= j < |order| && order[j] == n;
      RankedDescending(names);
      RankInSorted(order, j);
      CutOfDistinct(order, j, k);
    }
  }

  /** The log files a prune keeps are the first `KeepCount` in the
    * newest-first order. */
  lemma KeptPrefix(files: Files, days: Num)
    ensures var order := Ranked(LogNames(files));
      LogNames(Pruned(files, days)) == Names(order[..KeepCount(days, |order|)])
  {
    var order := Ranked(LogNames(files));
    var k := KeepCount(days, |order|);
    var kept := LogNames(Pruned(files, days));
    forall n ensures n in kept <==> n in order[..k] {
      if n in LogNames(files) {
        assert n in Names(order);
        var j :| 0 <= j < |order| && order[j] == n;
        CutOfDistinct(order, j, k);
      }
    }
  }

  /** A prune keeps exactly `KeepCount` log files, and every file it keeps
    * is newer than every file it deletes. */
  lemma PruneKeepsNewest(files: Files, days: Num)
    ensures |LogNames(Pruned(files, days))| == KeepCount(days, |LogNames(files)|)
    ensures forall a, b :: a in LogNames(Pruned(files, days)) && b in Doomed(files, days) ==> NotAfter(b, a)
  {
    var order := Ranked(LogNames(files));
    var k := KeepCount(days, |order|);
    KeptPrefix(files, days);
    assert NoRepeats(order[..k]) by {
      forall i, j | 0 <= i < j < k ensures order[..k][i] != order[..k][j] { assert order[..k][i] == order[i]; }
    }
    DistinctCard(order[..k]);
    RankedDescending(LogNames(files));
    forall a, b | a in LogNames(Pruned(files, days)) && b in Doomed(files, days) ensures NotAfter(b, a) {
      var i :| 0 <= i < k && order[..k][i] == a;
      var j :| 0 <= j < |order| - k && order[k..][j] == b;
      assert order[i] == a && order[k + j] == b;
      assert NotAfter(Itself(order[k + j]), Itself(order[i]));
    }
  }

  /** The retention actually applied: a setting that does not read as a
    * number falls back to the default. */
  function EffectiveRetention(days: Num): (d: Num)
    ensures !d.NaN?
    ensures !days.NaN? ==> d == days
  {
    if days.NaN? then Finite(DefaultRetentionDays as real) else days
  }

  /** As written, a retention that does not read as a number (`"7d"`,
    * `"sete"`) makes `Math.max(1, NaN)` `NaN` and `slice(NaN)` the whole
    * listing: every prune deletes every log file. */
  lemma NaNRetentionDeletesAll(files: Files)
    ensures LogNames(Pruned(files, NaN)) == {}
    ensures Doomed(files, NaN) == LogNames(files)
  {
    var order := Ranked(LogNames(files));
    assert KeepCount(NaN, |order|) == 0;
    assert order[0..] == order;
  }

  /** With the retention actually applied, the newest log file is never
    * deleted. */
  lemma EffectiveRetentionKeepsNewest(files: Files, raw: JsValue, newest: string)
    requires newest in LogNames(files) && Above(LogNames(files), newest) == {}
    ensures newest in Pruned(files, EffectiveRetention(RetentionDays(raw)))
  {
    var days := EffectiveRetention(RetentionDays(raw));
    KeepCountPositive(days, |LogNames(files)|);
    DoomedByRank(files, days, newest);
  }

  // ---------------------------------------------------------------- listing

  function Parsed(line: LogLine): seq<JsValue>
  {
    match SafeParseEntry(line)
    case Some(v) => [v]
    case None => []
  }

  /** The entries of a file, last line first. */
  function NewestFirst(lines: seq<LogLine>): (r: seq<JsValue>)
    ensures |r| <= |lines|
    ensures forall i :: 0 <= i < |r| ==> IsEntry(r[i])
    decreases |lines|
  {
    if lines == [] then [] else NewestFirst(lines[1..]) + Parsed(lines[0])
  }

  /** A line appended to a file is the first entry read from it. */
  lemma {:induction false} NewestFirstOfAppend(lines: seq<LogLine>, v: JsValue)
    requires IsEntry(v)
    ensures NewestFirst(lines + [Line(v)]) == [v] + NewestFirst(lines)
    decreases |lines|
  {
    if lines == [] {
      assert NewestFirst([Line(v)]) == NewestFirst([]) + Parsed(Line(v));
    } else {
      assert (lines + [Line(v)])[1..] == lines[1..] + [Line(v)];
      NewestFirstOfAppend(lines[1..], v);
    }
  }

  /** Reading from line `i` on gives a prefix of reading the whole file. */
  lemma {:induction false} NewestFirstPrefix(lines: seq<LogLine>, i: nat)
    requires i <= |lines|
    ensures NewestFirst(lines[i..]) <= NewestFirst(lines)
    decreases i
  {
    if i > 0 {
      NewestFirstPrefix(lines, i - 1);
      assert lines[i - 1..][1..] == lines[i..];
    }
  }

  function Contents(files: Files, name: string): seq<LogLine>
  {
    if name in files then files[name] else []
  }

  /** The entries of the files in `order`, one file after the other. */
  function Scan(order: seq<string>, files: Files): (r: seq<JsValue>)
    ensures forall i :: 0 <= i < |r| ==> IsEntry(r[i])
    decreases |order|
  {
    if order == [] then []
    else Scan(order[..|order| - 1], files) + NewestFirst(Contents(files, order[|order| - 1]))
  }

  lemma {:induction false} ScanPrefix(order: seq<string>, k: nat, files: Files)
    requires k <= |order|
    ensures Scan(order[..k], files) <= Scan(order, files)
    decreases |order|
  {
    if k < |order| {
      ScanPrefix(order[..|order| - 1], k, files);
      assert order[..|order| - 1][..k] == order[..k];
    } else {
      assert order[..k] == order;
    }
  }

  /** The first `n` elements, or all of them. */
  function Take<T>(xs: seq<T>, n: nat): (r: seq<T>)
    ensures r <= xs && |r| == if |xs| <= n then |xs| else n
  {
    if |xs| <= n then xs else xs[..n]
  }

  /** What `listCommandLogs` returns for a (pruned) directory: at most `cap`
    * entries, taken newest file first and last line first, sorted by
    * timestamp, newest first. */
  ghost function Listing(files: Files, cap: nat): seq<JsValue>
  {
    SortDesc(Take(Scan(Ranked(LogNames(files)), files), cap), Timestamp)
  }

  /** The listing holds at most `cap` entries, all of them entries, sorted
    * newest first, and is a reordering of the first `cap` entries read. */
  lemma ListingShape(files: Files, cap: nat)
    ensures var r := Listing(files, cap);
      && |r| <= cap
      && Descending(r, Timestamp)
      && (forall i :: 0 <= i < |r| ==> IsEntry(r[i]))
      && multiset(r) == multiset(Take(Scan(Ranked(LogNames(files)), files), cap))
  {
    var taken := Take(Scan(Ranked(LogNames(files)), files), cap);
    SortDescending(taken, Timestamp);
    SortPermutes(taken, Timestamp);
    var r := Listing(files, cap);
    forall i | 0 <= i < |r| ensures IsEntry(r[i]) {
      assert r[i] in multiset(taken);
    }
  }

  /** `listCommandLogs`' cap: `Math.min(Math.max(1, Math.trunc(limit || 20)), 200)`. */
  function CappedLimit(limit: Num): (c: nat)
    ensures 1 <= c <= 200
    ensures limit.NaN? || limit == Finite(0.0) ==> c == 20
    ensures limit.Finite? && limit.r >= 1.0 ==> c == if Trunc(limit.r) < 200 then Trunc(limit.r) else 200
  {
    match limit
    case NaN => 20
    case PosInf => 200
    case NegInf => 1
    case Finite(r) =>
      if r == 0.0 then 20
      else
        var t := Trunc(r);
        if t < 1 then 1 else if t < 200 then t else 200
  }

  /** The file an entry goes to, if `new Date(timestamp)` gave a day. */
  function Appended(files: Files, e: Entry, dateKey: Option<string>): (r: Files)
    ensures dateKey.None? ==> r == files
    ensures dateKey.Some? ==> r == files[dateKey.value + ".jsonl" := Contents(files, dateKey.value + ".jsonl") + [Line(EncodeEntry(e))]]
  {
    match dateKey
    case None => files
    case Some(day) => files[day + ".jsonl" := Contents(files, day + ".jsonl") + [Line(EncodeEntry(e))]]
  }

  /** The greatest of a set of names comes first in the ranked order. */
  lemma GreatestFirst(names: set<string>, top: string)
    requires top in names && forall n :: n in names ==> NotAfter(n, top)
    ensures Ranked(names) != [] && Ranked(names)[0] == top
  {
    var order := Ranked(names);
    assert top in Names(order);
    RankedDescending(names);
    var j :| 0 <= j < |order| && order[j] == top;
    assert order[0] in Names(order);
    if j > 0 {
      assert NotAfter(Itself(order[j]), Itself(order[0]));
      NotAfterAntisymmetric(top, order[0]);
    }
  }

  /** Unless the retention is `NaN`, a prune keeps the newest log file. */
  lemma GreatestSurvives(files: Files, days: Num, top: string)
    requires !days.NaN?
    requires top in LogNames(files) && forall n :: n in LogNames(files) ==> NotAfter(n, top)
    ensures top in Pruned(files, days)
  {
    assert Above(LogNames(files), top) == {} by {
      forall m | m in LogNames(files) && NotAfter(top, m) ensures m == top {
        NotAfterAntisymmetric(top, m);
      }
    }
    KeepCountPositive(days, |LogNames(files)|);
    DoomedByRank(files, days, top);
  }

  /** The newest entry of the newest log file is always listed. */
  lemma NewestEntryListed(files: Files, top: string, cap: nat)
    requires cap >= 1
    requires top in LogNames(files) && forall n :: n in LogNames(files) ==> NotAfter(n, top)
    requires NewestFirst(Contents(files, top)) != []
    ensures NewestFirst(Contents(files, top))[0] in Listing(files, cap)
  {
    var order := Ranked(LogNames(files));
    GreatestFirst(LogNames(files), top);
    ScanPrefix(order, 1, files);
    assert order[..1][..0] == [];
    assert Scan(order[..1], files) == NewestFirst(Contents(files, top));
    var taken := Take(Scan(order, files), cap);
    assert taken[0] == NewestFirst(Contents(files, top))[0];
    SortPermutes(taken, Timestamp);
    assert taken[0] in multiset(taken);
  }

  /** Appending to a day's file that sorts after every log file makes it
    * the newest log file. */
  lemma AppendedIsNewest(files: Files, e: Entry, day: string)
    requires IsLogName(day + ".jsonl")
    requires forall n :: n in LogNames(files) ==> NotAfter(n, day + ".jsonl")
    ensures var after := Appended(files, e, Some(day));
      && day + ".jsonl" in LogNames(after)
      && forall n :: n in LogNames(after) ==> NotAfter(n, day + ".jsonl")
  {
    var name := day + ".jsonl";
    var after := Appended(files, e, Some(day));
    forall n | n in LogNames(after) ensures NotAfter(n, name) {
      if n != name { assert n in LogNames(files); } else { NotAfterTotal(n, n); }
    }
  }

  /** A command logged into the newest day's file shows up in the next
    * listing, whatever the cap, as long as the retention reads as a number. */
  lemma AppendThenList(files: Files, e: Entry, day: string, days: Num, cap: nat)
    requires !days.NaN? && cap >= 1
    requires IsLogName(day + ".jsonl")
    requires forall n :: n in LogNames(files) ==> NotAfter(n, day + ".jsonl")
    ensures EncodeEntry(e) in Listing(Pruned(Appended(Pruned(files, days), e, Some(day)), days), cap)
  {
    var name := day + ".jsonl";
    var f1 := Pruned(files, days);
    assert forall n :: n in LogNames(f1) ==> NotAfter(n, name) by {
      forall n | n in LogNames(f1) ensures NotAfter(n, name) { assert n in LogNames(files); }
    }
    var f2 := Appended(f1, e, Some(day));
    AppendedIsNewest(f1, e, day);
    GreatestSurvives(f2, days, name);
    var f3 := Pruned(f2, days);
    assert forall n :: n in LogNames(f3) ==> NotAfter(n, name) by {
      forall n | n in LogNames(f3) ensures NotAfter(n, name) { assert n in LogNames(f2); }
    }
    var v := EncodeEntry(e);
    assert NewestFirst(Contents(f3, name))[0] == v by {
      EntryRoundTrip(e);
      NewestFirstOfAppend(Contents(f1, name), v);
      assert Contents(f3, name) == Contents(f1, name) + [Line(v)];
    }
    NewestEntryListed(f3, name, cap);
  }

  // ---------------------------------------------------------------- the log

  /** `readdirSync` filtered to log file names, in whatever order the
    * directory gives them. */
  method LogFileNames(files: Files) returns (names: seq<string>)
    ensures NoRepeats(names) && Names(names) == LogNames(files)
  {
    names := [];
    var rest := files.Keys;
    while rest != {}
      invariant rest <= files.Keys
      invariant NoRepeats(names)
      invariant Names(names) == LogNamesIn(files.Keys - rest)
      decreases rest
    {
      var n :| n in rest;
      assert files.Keys - (rest - {n}) == (files.Keys - rest) + {n};
      if IsLogName(n) {
        assert n !in Names(names);
        assert Names(names + [n]) == Names(names) + {n};
        names := names + [n];
      }
      rest := rest - {n};
    }
    assert files.Keys - rest == files.Keys;
  }

  /** The collecting loops of `listCommandLogs`: the entries of each file
    * in `order`, last line first, stopping as soon as `cap` are collected. */
  method Collect(order: seq<string>, files: Files, cap: nat) returns (collected: seq<JsValue>)
    requires cap >= 1
    ensures collected == Take(Scan(order, files), cap)
  {
    collected := [];
    var k := 0;
    while k < |order|
      invariant 0 <= k <= |order|
      invariant collected == Scan(order[..k], files)
      invariant |collected| < cap
    {
      var lines := Contents(files, order[k]);
      var index := |lines| - 1;
      while index >= 0
        invariant -1 <= index < |lines|
        invariant collected == Scan(order[..k], files) + NewestFirst(lines[index + 1..])
        invariant |collected| < cap
      {
        ReadOneMore(Scan(order[..k], files), lines, index);
        var entry := SafeParseEntry(lines[index]);
        if entry.Some? {
          collected := collected + [entry.value];
          if |collected| >= cap {
            StopsAtCap(order, files, k, index, cap);
            return;
          }
        }
        index := index - 1;
      }
      ScanOneMore(order, k, files);
      k := k + 1;
    }
    assert order[..k] == order;
  }

  /** Reading line `index` of a file, after the lines below it, adds that
    * line's entry, if any. */
  lemma ReadOneMore(before: seq<JsValue>, lines: seq<LogLine>, index: int)
    requires 0 <= index < |lines|
    ensures before + NewestFirst(lines[index..]) == before + NewestFirst(lines[index + 1..]) + Parsed(lines[index])
  {
    assert lines[index..][1..] == lines[index + 1..];
  }

  /** Entries collected up to line `index` of file `k` are a prefix of
    * the whole scan; when there are `cap` of them they are its first
    * `cap`. */
  lemma StopsAtCap(order: seq<string>, files: Files, k: int, index: int, cap: nat)
    requires 0 <= k < |order| && 0 <= index < |Contents(files, order[k])|
    requires |Scan(order[..k], files) + NewestFirst(Contents(files, order[k])[index..])| == cap
    ensures Take(Scan(order, files), cap) == Scan(order[..k], files) + NewestFirst(Contents(files, order[k])[index..])
  {
    var lines := Contents(files, order[k]);
    var before := Scan(order[..k], files);
    NewestFirstPrefix(lines, index);
    PrefixOfAppend(before, NewestFirst(lines[index..]), NewestFirst(lines));
    assert order[..k + 1][..k] == order[..k];
    assert Scan(order[..k + 1], files) == before + NewestFirst(lines);
    ScanPrefix(order, k + 1, files);
    PrefixTransitive(before + NewestFirst(lines[index..]), Scan(order[..k + 1], files), Scan(order, files));
  }

  /** Scanning file `k` after the files before it adds its entries. */
  lemma ScanOneMore(order: seq<string>, k: int, files: Files)
    requires 0 <= k < |order|
    ensures Scan(order[..k + 1], files) == Scan(order[..k], files) + NewestFirst(Contents(files, order[k])[0..])
  {
    assert order[..k + 1][..k] == order[..k];
    assert Contents(files, order[k])[0..] == Contents(files, order[k]);
  }

  lemma PrefixOfAppend<T>(a: seq<T>, b: seq<T>, c: seq<T>)
    requires b <= c
    ensures a + b <= a + c
  {
    assert (a + c)[..|a + b|] == a + c[..|b|];
  }

  lemma PrefixTransitive<T>(a: seq<T>, b: seq<T>, c: seq<T>)
    requires a <= b && b <= c
    ensures a <= c
  {
    assert c[..|b|][..|a|] == c[..|a|];
  }

  /** `.sort((a, b) => b.localeCompare(a))` on distinct names. */
  method SortNames(names: seq<string>) returns (order: seq<string>)
    requires NoRepeats(names)
    ensures order == Ranked(Names(names))
  {
    order := SortDesc(names, Itself);
    SortIsRanked(names);
  }

  /** The command-log directory, with the retention read once from the
    * environment. `fault` is an error the file system raises on every
    * operation on the directory (it cannot be created or read), if any. */
  class CommandLog {
    const retention: Num
    const fault: Option<string>
    var files: Files

    constructor (retentionRaw: JsValue, fault: Option<string>, files: Files)
      ensures retention == RetentionDays(retentionRaw)
      ensures this.fault == fault && this.files == files
    {
      retention := RetentionDays(retentionRaw);
      this.fault := fault;
      this.files := files;
    }

    /** `pruneOldFiles`: sort the log files newest first and delete all but
      * the first `KeepCount`; the directory's error, if any, is raised
      * before anything is deleted. */
    method PruneOldFiles() returns (error: Option<string>)
      modifies this
      ensures error == fault
      ensures files == if fault.None? then Pruned(old(files), retention) else old(files)
    {
      if fault.Some? {
        return fault;
      }
      var names := LogFileNames(files);
      var order := SortNames(names);
      var i := SliceStart(|order|, KeepOf(retention));
      ghost var k := i;
      ghost var before := files;
      ghost var gone: set<string> := {};
      while i < |order|
        invariant k <= i <= |order|
        invariant gone == Names(order[k..i])
        invariant files == before - gone
      {
        assert order[k..i + 1] == order[k..i] + [order[i]];
        MapMinusStep(before, gone, order[i]);
        gone := gone + {order[i]};
        files := files - {order[i]};
        i := i + 1;
      }
      assert order[k..i] == order[k..];
      error := None;
    }

    /** `appendCommandLog`: prune, then append the entry as one line to its
      * day's file. `dateKey` is `toDateKey(new Date(entry.timestamp))`,
      * nothing when the timestamp is not a date. Every error is swallowed:
      * the caller never sees one. */
    method AppendCommandLog(e: Entry, dateKey: Option<string>)
      modifies this
      ensures files == if fault.None? then Appended(Pruned(old(files), retention), e, dateKey) else old(files)
    {
      var error := PruneOldFiles();
      if error.None? && dateKey.Some? {
        var name := dateKey.value + ".jsonl";
        var lines := if name in files then files[name] else [];
        files := files[name := lines + [Line(EncodeEntry(e))]];
      }
    }

    /** `listCommandLogs`: prune, then collect entries newest file first,
      * last line first, up to the cap, and sort them by timestamp. The
      * directory's error is raised to the caller. */
    method ListCommandLogs(limit: Num) returns (r: Result<seq<JsValue>, string>)
      modifies this
      ensures fault.Some? ==> r == Err(fault.value) && files == old(files)
      ensures fault.None? ==> files == Pruned(old(files), retention) && r == Ok(Listing(files, CappedLimit(limit)))
    {
      var error := PruneOldFiles();
      if error.Some? {
        return Err(error.value);
      }
      var cap := CappedLimit(limit);
      var names := LogFileNames(files);
      var order := SortNames(names);
      var collected := Collect(order, files, cap);
      r := Ok(SortDesc(collected, Timestamp));
    }
  }
}
