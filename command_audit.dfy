/** The command-audit middleware: every request whose method changes
  * something (POST, PUT, PATCH, DELETE) is written to the command log once
  * its response has finished, with the method, the path without its query,
  * the response status, the actor and the client address. Other requests
  * pass through untouched.
  *
  * The actor is resolved exactly as the request-context middleware does it.
  * The start time, the entry id (clock and random source) and the moment
  * the response finishes are parameters. */
module CommandAudit {
  import opened Wrappers
  import opened JsText
  import opened JsValues
  import opened RequestContext
  import opened CommandLogService
  import opened TextOrder

  const CommandMethods: set<string> := {"POST", "PUT", "PATCH", "DELETE"}

  predicate IsCommandMethod(verb: string)
  {
    ToUpper(verb) in CommandMethods
  }

  /** `s.split('?')[0]`: everything before the first `?`. */
  function BeforeQuery(s: string): (r: string)
    ensures r <= s && Lacks(r, '?')
    ensures |r| < |s| ==> s[|r|] == '?'
    decreases |s|
  {
    if s == [] || s[0] == '?' then [] else [s[0]] + BeforeQuery(s[1..])
  }

  /** A path followed by a query string is cut back to the path, and a path
    * without one is kept whole. */
  lemma {:induction false} BeforeQueryOfPath(path: string, query: string)
    requires Lacks(path, '?')
    ensures BeforeQuery(path + ['?'] + query) == path
    ensures BeforeQuery(path) == path
    decreases |path|
  {
    if path != [] {
      assert (path + ['?'] + query)[1..] == path[1..] + ['?'] + query;
      BeforeQueryOfPath(path[1..], query);
    }
  }

  /** `(req.originalUrl || req.url || '').split('?')[0]`. */
  function PathOf(originalUrl: string, url: string): (p: string)
    ensures Lacks(p, '?')
    ensures originalUrl != "" ==> p <= originalUrl
    ensures originalUrl == "" ==> p <= url
  {
    BeforeQuery(if originalUrl != "" then originalUrl else url)
  }

  /** `toCommand`: the upper-cased method and the path. */
  function ToCommand(verb: string, path: string): string
  {
    ToUpper(verb) + " " + path
  }

  /** `req.ip || req.socket?.remoteAddress || null`. */
  function ClientAddress(ip: string, remoteAddress: string): (a: Option<string>)
    ensures ip != "" ==> a == Some(ip)
    ensures ip == "" && remoteAddress != "" ==> a == Some(remoteAddress)
    ensures a.None? <==> ip == "" && remoteAddress == ""
  {
    if ip != "" then Some(ip) else if remoteAddress != "" then Some(remoteAddress) else None
  }

  /** What the middleware captures when the request arrives, for the entry
    * written when the response finishes. */
  datatype Pending = Pending(startedAt: string, verb: string, path: string, command: string,
                             actor: string, ip: Option<string>)

  function PendingOf(x: Exchange, startedAt: string): Pending
    reads x
  {
    var path := PathOf(x.originalUrl, x.url);
    Pending(startedAt, ToUpper(x.verb), path, ToCommand(x.verb, path), ResolveActor(x.headers, x.body),
            ClientAddress(x.ip, x.remoteAddress))
  }

  /** The entry written at `finish`. */
  function EntryOf(p: Pending, id: string, status: int): (e: Entry)
    ensures e.timestamp == p.startedAt && e.command == p.command && e.status == status
  {
    Entry(id, p.startedAt, p.verb, p.path, p.command, status, p.actor, p.ip)
  }

  /** The day file of a `toISOString()` timestamp: its first ten
    * characters. */
  function DateKeyOf(iso: string): (k: Option<string>)
    ensures |iso| >= 10 ==> k == Some(iso[..10])
  {
    if |iso| >= 10 then Some(iso[..10]) else None
  }

  /** The entry of a command request records the method, the path without
    * its query, and a command that is the two joined by a space; its
    * actor is never empty. */
  lemma AuditedEntry(x: Exchange, startedAt: string, id: string, status: int)
    requires IsCommandMethod(x.verb)
    ensures var e := EntryOf(PendingOf(x, startedAt), id, status);
      && e.verb in CommandMethods
      && Lacks(e.path, '?')
      && e.command == e.verb + " " + e.path
      && e.actor != [] && Trim(e.actor) == e.actor
  {
    ActorIsTrimmed(x.headers, x.body);
  }

  /** `commandAuditMiddleware` on arrival: pass the request on once, and
    * for a command request capture what its log entry needs. */
  method CommandAuditMiddleware(x: Exchange, startedAt: string) returns (p: Option<Pending>)
    modifies x
    ensures p.Some? <==> IsCommandMethod(x.verb)
    ensures p.Some? ==> p.value == PendingOf(x, startedAt)
    ensures x.nextCalls == old(x.nextCalls) + 1
    ensures x.requestId == old(x.requestId) && x.actor == old(x.actor)
    ensures x.responseHeaders == old(x.responseHeaders) && x.statusCode == old(x.statusCode)
  {
    if !IsCommandMethod(x.verb) {
      x.Next();
      return None;
    }
    var actor := ResolveActor(x.headers, x.body);
    var path := PathOf(x.originalUrl, x.url);
    var command := ToCommand(x.verb, path);
    var ip := ClientAddress(x.ip, x.remoteAddress);
    p := Some(Pending(startedAt, ToUpper(x.verb), path, command, actor, ip));
    x.Next();
  }

  /** The `finish` handler: append the entry with the final status. */
  method OnFinish(log: CommandLog, p: Pending, id: string, status: int)
    modifies log
    ensures log.fault.None? ==> log.files == Appended(Pruned(old(log.files), log.retention), EntryOf(p, id, status), DateKeyOf(p.startedAt))
    ensures log.fault.Some? ==> log.files == old(log.files)
  {
    var entry := Entry(id, p.startedAt, p.verb, p.path, p.command, status, p.actor, p.ip);
    log.AppendCommandLog(entry, DateKeyOf(p.startedAt));
  }

  /** A command audited on the newest day shows up in the next listing of
    * the history. */
  lemma AuditedCommandListed(files: Files, days: Num, p: Pending, id: string, status: int, cap: nat)
    requires !days.NaN? && cap >= 1 && |p.startedAt| >= 10
    requires IsLogName(p.startedAt[..10] + ".jsonl")
    requires forall n :: n in LogNames(files) ==> NotAfter(n, p.startedAt[..10] + ".jsonl")
    ensures EncodeEntry(EntryOf(p, id, status)) in
      Listing(Pruned(Appended(Pruned(files, days), EntryOf(p, id, status), DateKeyOf(p.startedAt)), days), cap)
  {
    AppendThenList(files, EntryOf(p, id, status), p.startedAt[..10], days, cap);
  }
}
